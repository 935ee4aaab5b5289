/** Where a program's input comes from and where its output goes, from the text of its command. */
module Streams {
  import opened Ast
  import opened Sem
  import opened Values
  import opened Calls
  import Heredocs
  import HeredocText
  import LexSpec
  import Print
  import PrintTokens
  import EndToEnd
  import ParseSpec
  import PrintLex
  import ExecLaws
  import ScopeLaws
  import RoundTrip
  import D = Decimal
  import P = Paths
  import T = VfsTree
  import V = VfsOps
  import L = VfsLaws
  import M = Mounts

  // ---------------------------------------------------------------- the last input redirection

  /** `<` with a file, and a heredoc. */
  predicate IsInput(r: Redirect) {
    r.kind.Read? && (r.target.ToWord? || r.target.ToHeredoc?)
  }

  predicate IsLastInput(rs: seq<Redirect>, k: nat) {
    k < |rs| && IsInput(rs[k]) && forall j :: k < j < |rs| ==> !IsInput(rs[j])
  }

  /** What this redirection, made in state `s`, gives as input: the body of a heredoc, expanded like
      text inside double quotes unless it is literal; the data of the file at the location its word
      names, as the tree of that moment holds it, or as its mount answers. */
  ghost predicate Supplies(w: World, r: Redirect, s: St, data: string) {
    match r.target
    case ToHeredoc(hd) =>
      if hd.body.LiteralBody? then data == hd.body.s
      else
        var ev := ExpandWord(w, DoubleQuoted(hd.body.parts), s);
        ev.Val? && ev.value == data
    case ToWord(word) =>
      var ev := ExpandWord(w, word, s);
      && ev.Val?
      && var path := P.Resolve(ev.st.cwd, ev.value);
         FileHolds(w, ev.st, path, data)
    case _ => false
  }

  /** A file at that path holds the data; the null device holds nothing. */
  ghost predicate FileHolds(w: World, s: St, path: string, data: string) {
    var m, p, route := T.Flatten(s.root), P.Canon(path), M.Route(s.mounts, P.Normalize(path));
    if route.Some? then w.mountRead(s.mounts[route.value.0].point, route.value.1, s.host).0 == T.Ok(data)
    else p in m && (m[p] == T.FileE(data) || (m[p].DeviceE? && m[p].kind.Null? && data == ""))
  }

  lemma ReadHolds(w: World, s: St, path: string)
    requires ReadFile(w, s, path).0.Ok?
    ensures FileHolds(w, s, path, ReadFile(w, s, path).0.value)
  {
    hide V.ReadAt;
    if M.Route(s.mounts, P.Normalize(path)).None? {
      L.ReadAtRefines(s.root, path);
      L.ReadLaw(s.root, P.Canon(path));
    }
  }

  lemma OneInput(w: World, r: Redirect, st: St, t: Table)
    requires Redirected(w, r, st, t).Val?
    ensures IsInput(r) ==> Supplies(w, r, st, Redirected(w, r, st, t).value.stdin)
    ensures !IsInput(r) ==> Redirected(w, r, st, t).value.stdin == t.stdin
  {
    hide ExpandWord;
    hide ReadFile;
    hide FileHolds;
    hide P.Resolve;
    if r.target.ToWord? && r.kind.Read? {
      var ev := ExpandWord(w, r.target.w, st);
      ReadHolds(w, ev.st, P.Resolve(ev.st.cwd, ev.value));
    } else if r.target.ToHeredoc? && r.kind.Read? && r.target.hd.body.PartsBody? {
      QuotedExpands(w, r.target.hd.body.parts, st);
    }
  }

  lemma QuotedExpands(w: World, ps: seq<DQPart>, st: St)
    ensures ExpandWord(w, DoubleQuoted(ps), st) == ExpandParts(w, ps, st)
  {
  }

  /** Without input redirections the input is the command's own. */
  lemma {:induction false} OwnInput(w: World, rs: seq<Redirect>, st: St, t: Table)
    requires RedirectAll(w, rs, st, t).Val? && forall r :: r in rs ==> !IsInput(r)
    ensures RedirectAll(w, rs, st, t).value.stdin == t.stdin
    decreases |rs|
  {
    hide Redirected;
    if rs != [] {
      var one := Redirected(w, rs[0], st, t);
      OneInput(w, rs[0], st, t);
      OwnInput(w, rs[1..], one.st, one.value);
    }
  }

  /** With them it is what the last of them supplies, in the state in which that one is made. */
  lemma {:induction false} LastInputWins(w: World, rs: seq<Redirect>, st: St, t: Table, k: nat)
    requires RedirectAll(w, rs, st, t).Val? && IsLastInput(rs, k)
    ensures var front := RedirectAll(w, rs[..k], st, t);
            front.Val? && Supplies(w, rs[k], front.st, RedirectAll(w, rs, st, t).value.stdin)
    decreases |rs|
  {
    hide Redirected;
    hide Supplies;
    var one := Redirected(w, rs[0], st, t);
    OneInput(w, rs[0], st, t);
    if k == 0 {
      assert rs[..0] == [];
      OwnInput(w, rs[1..], one.st, one.value);
    } else {
      assert IsLastInput(rs[1..], k - 1) by {
        forall j | k - 1 < j < |rs[1..]| ensures !IsInput(rs[1..][j]) { assert !IsInput(rs[j + 1]); }
      }
      LastInputWins(w, rs[1..], one.st, one.value, k - 1);
      assert rs[..k] == [rs[0]] + rs[1..][..k - 1] && rs[..k][1..] == rs[1..][..k - 1];
    }
  }

  /** The state in which a command's redirections are made: behind its assignments, its name and its
      arguments. */
  function AtRedirections(w: World, sc: SimpleCommand, st: St): St
    requires sc.name.Some?
  {
    ExpandWords(w, sc.args, ExpandWord(w, sc.name.value, AssignAll(w, sc.assignments, st).st).st).st
  }

  /** The input of the program that a command dispatches, for every command that gets as far. */
  lemma ProgramInput(w: World, sc: SimpleCommand, st: St, stdin: string)
    requires sc.name.Some? && ScopeLaws.Prepare(w, sc, st, stdin).Val?
    ensures var input, s := ScopeLaws.Prepare(w, sc, st, stdin).value.2.stdin, AtRedirections(w, sc, st);
            && ((forall r :: r in sc.redirects ==> !IsInput(r)) ==> input == stdin)
            && forall k: nat :: IsLastInput(sc.redirects, k) ==>
                 var front := RedirectAll(w, sc.redirects[..k], s, Table(ParentOut, ParentErr, stdin, []));
                 front.Val? && Supplies(w, sc.redirects[k], front.st, input)
  {
    hide ExpandWord;
    hide ExpandWords;
    hide AssignAll;
    hide RedirectAll;
    hide Supplies;
    hide IsInput;
    var Val(_, s1) := AssignAll(w, sc.assignments, st);
    var Val(_, s2) := ExpandWord(w, sc.name.value, s1);
    var Val(_, s3) := ExpandWords(w, sc.args, s2);
    var t0 := Table(ParentOut, ParentErr, stdin, []);
    if forall r :: r in sc.redirects ==> !IsInput(r) { OwnInput(w, sc.redirects, s3, t0); }
    forall k: nat | IsLastInput(sc.redirects, k)
      ensures var front := RedirectAll(w, sc.redirects[..k], s3, t0);
              front.Val? && Supplies(w, sc.redirects[k], front.st, ScopeLaws.Prepare(w, sc, st, stdin).value.2.stdin)
    {
      LastInputWins(w, sc.redirects, s3, t0, k);
    }
  }

  /** An input file that cannot be read fails the command with its error, in the state behind the
      attempt. */
  lemma UnreadableInput(w: World, r: Redirect, st: St, t: Table, text: string, s1: St)
    requires r.kind.Read? && r.target.ToWord? && ExpandWord(w, r.target.w, st) == Val(text, s1)
    requires ReadFile(w, s1, P.Resolve(s1.cwd, text)).0.Err?
    ensures var answer := ReadFile(w, s1, P.Resolve(s1.cwd, text));
            Redirected(w, r, st, t) == Fail(VfsFailure(answer.0.error), answer.1)
  {
    hide ExpandWord;
    hide ReadFile;
    hide P.Resolve;
  }

  /** What the program wrote to the command's own descriptors is shown, also when a file cannot be
      written afterwards. */
  lemma ShownWhateverTheFiles(w: World, argv: seq<string>, t: Table, saved: seq<Saved>, st: St)
    requires argv != []
    ensures Launch(w, argv, t, saved, st).log == Inherited(t, Dispatch(w, argv[0], argv, t.stdin, st).log)
  {
    hide Dispatch;
    hide FlushAll;
    hide Inherited;
  }

  // ---------------------------------------------------------------- from text

  /** A command whose redirections only set the input. */
  lemma RedirectedCall(w: World, name: string, rs: seq<Redirect>, st: St, s1: St, stdin: string, data: string)
    requires PlainName(name) && IsProgram(w, name, st.aliases, s1.env)
    requires RedirectAll(w, rs, st, Table(ParentOut, ParentErr, stdin, [])) == Val(Table(ParentOut, ParentErr, data, []), s1)
    ensures ExecLaws.Ended(RunScript(w, [Simple(SimpleCommand([], Some(Literal(name)), [], rs))], st, stdin)) ==
            Seen(s1, w.program(Call([name], data, s1)))
  {
    hide RunCommand;
    hide RunScript;
    hide Dispatch;
    hide RedirectAll;
    hide Print.WfWord;
    hide FlushAll;
    var sc := SimpleCommand([], Some(Literal(name)), [], rs);
    var t := Table(ParentOut, ParentErr, data, []);
    assert AssignAll(w, [], st) == Val([], st) && ExpandWords(w, [], st) == Val([], st);
    LiteralValue(w, name, st);
    assert Unalias(st.aliases, name) + [] == [name];
    var run := Dispatch(w, name, [name], data, s1);
    NothingRedirected(w, t, run.log, run.st);
    assert RestoreAll(run.st.env, []) == run.st.env;
    assert RunSimple(w, sc, st, stdin) == run;
    ProgramAnswers(w, name, [name], data, s1, st.aliases);
    RunsSimple(w, sc, st, stdin);
    ExecLaws.LoneCommand(w, Simple(sc), st, stdin);
  }

  /** The lines of the last heredoc, or what was the input before. */
  function LastLines(ds: seq<Heredocs.Doc>, otherwise: string): string {
    if ds == [] then otherwise else Heredocs.Verbatim(ds[|ds| - 1].lines)
  }

  /** Quoted, or with nothing in it that an unquoted body expands. */
  predicate StandsForItself(d: Heredocs.Doc) {
    d.p.quoted || ('$' !in Heredocs.Verbatim(d.lines) && '`' !in Heredocs.Verbatim(d.lines))
  }

  lemma ItemStands(d: Heredocs.Doc)
    requires StandsForItself(d)
    ensures var item := ParseSpec.QueueItem(d.p.quoted, Heredocs.Verbatim(d.lines));
            && ParseSpec.BodyOf(item).Good?
            && ParseSpec.BodyOf(item).value ==
               if d.p.quoted then LiteralBody(item.body)
               else PartsBody(if item.body == "" then [] else [DQLiteral(item.body)])
  {
    hide ParseSpec.DqWordParts;
    hide Heredocs.Verbatim;
    var item := ParseSpec.QueueItem(d.p.quoted, Heredocs.Verbatim(d.lines));
    if !d.p.quoted { Heredocs.PlainBody(item); }
  }

  lemma {:induction false} AllDecode(ds: seq<Heredocs.Doc>)
    requires forall d :: d in ds ==> StandsForItself(d)
    ensures Heredocs.Decode(HeredocText.Items(ds), |ds|)
  {
    hide ParseSpec.BodyOf;
    hide StandsForItself;
    forall k | 0 <= k < |ds| ensures ParseSpec.BodyOf(HeredocText.Items(ds)[k]).Good? {
      assert ds[k] in ds;
      ItemStands(ds[k]);
    }
  }

  lemma OneHeredoc(w: World, d: Heredocs.Doc, st: St, t: Table)
    requires StandsForItself(d) && ParseSpec.BodyOf(ParseSpec.QueueItem(d.p.quoted, Heredocs.Verbatim(d.lines))).Good?
    ensures Redirected(w, HeredocText.WithBody(d.p, ParseSpec.QueueItem(d.p.quoted, Heredocs.Verbatim(d.lines))), st, t) ==
            Val(t.(stdin := Heredocs.Verbatim(d.lines)), st)
  {
    hide ParseSpec.BodyOf;
    hide Heredocs.Verbatim;
    hide StandsForItself;
    hide ExpandParts;
    ItemStands(d);
    var body := Heredocs.Verbatim(d.lines);
    var r := HeredocText.WithBody(d.p, ParseSpec.QueueItem(d.p.quoted, body));
    assert r.kind.Read? && r.target.ToHeredoc?;
    PartExpands(w, body, st);
    assert ExpandHeredoc(w, r.target.hd, st) == Val(body, st);
  }

  lemma PartExpands(w: World, body: string, st: St)
    ensures ExpandParts(w, if body == "" then [] else [DQLiteral(body)], st) == Val(body, st)
  {
    if body != "" {
      var ps := [DQLiteral(body)];
      assert ps[1..] == [] && ExpandParts(w, [], st) == Val("", st) && body + "" == body;
      assert ExpandParts(w, ps, st) == Val(body, st);
    }
  }

  lemma {:induction false} HeredocsSupply(w: World, ds: seq<Heredocs.Doc>, st: St, t: Table)
    requires forall d :: d in ds ==> StandsForItself(d)
    requires Heredocs.Decode(HeredocText.Items(ds), |ds|)
    ensures RedirectAll(w, HeredocText.FilledOf(ds), st, t) == Val(t.(stdin := LastLines(ds, t.stdin)), st)
    decreases |ds|
  {
    hide ParseSpec.BodyOf;
    hide Heredocs.Verbatim;
    hide StandsForItself;
    hide Redirected;
    hide HeredocText.WithBody;
    if ds != [] {
      HeredocText.DecodeTail(ds);
      var rs := HeredocText.FilledOf(ds);
      assert rs[1..] == HeredocText.FilledOf(ds[1..]);
      OneHeredoc(w, ds[0], st, t);
      HeredocsSupply(w, ds[1..], st, t.(stdin := Heredocs.Verbatim(ds[0].lines)));
      if |ds| > 1 { assert ds[1..][|ds[1..]| - 1] == ds[|ds| - 1]; }
    }
  }

  /** From text: a command with any number of heredocs whose bodies stand for themselves calls its
      program with exactly the lines of the last one as input. */
  lemma HeredocReachesTheProgram(w: World, name: string, ds: seq<Heredocs.Doc>, st: St, stdin: string)
    requires PlainName(name) && IsProgram(w, name, st.aliases, st.env)
    requires HeredocText.WfDocs(ds) && ds != [] && forall d :: d in ds ==> StandsForItself(d)
    ensures Sem.Exec(w, HeredocText.CommandText(name, ds), st, stdin, []) ==
            Seen(st, w.program(Call([name], Heredocs.Verbatim(ds[|ds| - 1].lines), st)))
  {
    hide Sem.Exec;
    hide RunScript;
    hide HeredocText.CommandText;
    hide HeredocText.WfDocs;
    hide Heredocs.Verbatim;
    hide Heredocs.Decode;
    hide StandsForItself;
    hide ParseSpec.Parse;
    hide IsProgram;
    hide RedirectAll;
    hide ExecLaws.Ended;
    AllDecode(ds);
    HeredocText.HeredocsParse(name, ds);
    var t := Table(ParentOut, ParentErr, stdin, []);
    var rs := HeredocText.FilledOf(ds);
    HeredocsSupply(w, ds, st, t);
    RedirectedCall(w, name, rs, st, st, stdin, LastLines(ds, stdin));
    ExecLaws.ParsedRuns(w, HeredocText.CommandText(name, ds), [Simple(SimpleCommand([], Some(Literal(name)), [], rs))], st, stdin);
  }

  /** `name <f` */
  function Reading(name: string, f: string): SimpleCommand {
    SimpleCommand([], Some(Literal(name)), [], [Redirect(Some(0), Read, ToWord(Literal(f)))])
  }

  lemma ReadingIsPrinted(name: string, f: string)
    requires PlainName(name) && PlainValue(f)
    ensures Print.WfScript([Simple(Reading(name, f))], false)
    ensures Print.PrintScript([Simple(Reading(name, f))]) == " " + Print.LiteralText(name) + " < " + Print.LiteralText(f) + " ;"
  {
    hide Print.LiteralText;
    var sc, c := Reading(name, f), Simple(Reading(name, f));
    assert Print.WfWord(Literal(f), false);
    assert Print.WfRedirect(sc.redirects[0], false);
    assert Print.WfSimple(sc, false);
    assert Print.WfPipe(c, false) && Print.WfItem(c, false);
    var end := Print.Cons(LexSpec.TSemi, Print.AtEof);
    var less, file := LexSpec.TRedirect(None, LexSpec.Less), LexSpec.TWord(Print.LiteralText(f));
    EndToEnd.LoneTokens(sc);
    EndToEnd.NameToken(f, end);
    assert Print.ToksRedirect(sc.redirects[0], end) == Print.Cons(less, Print.Cons(file, end));
    assert sc.redirects[1..] == [] && Print.ToksRedirects([], end) == end;
    assert Print.ToksRedirects(sc.redirects, end) == Print.Cons(less, Print.Cons(file, end));
    BareTokens(name, sc.redirects, end);
    Rendered(Print.LiteralText(name), less, Print.LiteralText(f), end);
    assert Print.Render(end, false) == " ;";
  }

  lemma BareTokens(name: string, rs: seq<Redirect>, end: Print.Toks)
    ensures Print.ToksSimple(SimpleCommand([], Some(Literal(name)), [], rs), end) ==
            Print.Cons(LexSpec.TWord(Print.LiteralText(name)), Print.ToksRedirects(rs, end))
  {
    hide Print.LiteralText;
    hide Print.ToksRedirects;
    var more := Print.ToksRedirects(rs, end);
    assert Print.ToksWords([], more) == more;
    EndToEnd.NameToken(name, more);
    assert Print.ToksAssigns([], Print.ToksName(Some(Literal(name)), more)) == Print.ToksName(Some(Literal(name)), more);
  }

  lemma Rendered(a: string, op: LexSpec.TokenKind, b: string, tl: Print.Toks)
    requires op.TRedirect?
    ensures Print.Render(Print.Cons(LexSpec.TWord(a), Print.Cons(op, Print.Cons(LexSpec.TWord(b), tl))), false) ==
            " " + a + " " + Print.KText(op) + " " + b + Print.Render(tl, false)
  {
    hide Print.Render;
    hide Print.KText;
    var two := Print.Cons(LexSpec.TWord(b), tl);
    PrintTokens.RenderCons(LexSpec.TWord(a), Print.Cons(op, two), false);
    PrintTokens.RenderCons(op, two, false);
    PrintTokens.RenderCons(LexSpec.TWord(b), tl, false);
    WordTexts(a);
    WordTexts(b);
    ThreeTexts(a, Print.KText(op), b, Print.Render(tl, false));
  }

  lemma ThreeTexts(a: string, k: string, b: string, r: string)
    ensures " " + (a + (" " + (k + (" " + (b + r))))) == " " + a + " " + k + " " + b + r
  {
    PrintLex.Assoc(" " + a + " " + k, " " + b, r);
    PrintLex.Assoc(" " + a, " " + k, " " + (b + r));
    assert " " + (b + r) == " " + b + r;
    assert " " + (k + (" " + (b + r))) == " " + k + (" " + (b + r));
    assert " " + (a + (" " + (k + (" " + (b + r))))) == " " + a + (" " + (k + (" " + (b + r))));
  }

  lemma WordTexts(t: string)
    ensures Print.KText(LexSpec.TWord(t)) == t
  {
  }

  /** From text: `name <f` calls its program with what the file holds. */
  lemma FileReachesTheProgram(w: World, name: string, f: string, st: St, stdin: string, data: string)
    requires PlainName(name) && PlainValue(f) && IsProgram(w, name, st.aliases, st.env)
    requires var path := P.Resolve(st.cwd, f);
             && M.Route(st.mounts, P.Normalize(path)).None?
             && P.Canon(path) in T.Flatten(st.root) && T.Flatten(st.root)[P.Canon(path)] == T.FileE(data)
    ensures Sem.Exec(w, " " + Print.LiteralText(name) + " < " + Print.LiteralText(f) + " ;", st, stdin, []) ==
            Seen(st, w.program(Call([name], data, st)))
  {
    hide Sem.Exec;
    hide RunScript;
    hide Print.PrintScript;
    hide Print.WfScript;
    hide Print.LiteralText;
    hide IsProgram;
    hide PlainName;
    hide ExecLaws.Ended;
    hide P.Resolve;
    hide V.ReadAt;
    var path := P.Resolve(st.cwd, f);
    var sc := Reading(name, f);
    ReadingIsPrinted(name, f);
    ExecLaws.PrintedRuns(w, [Simple(sc)], st, stdin);
    LiteralValue(w, f, st);
    L.ReadAtRefines(st.root, path);
    L.ReadLaw(st.root, P.Canon(path));
    var t := Table(ParentOut, ParentErr, stdin, []);
    assert Redirected(w, sc.redirects[0], st, t) == Val(t.(stdin := data), st);
    assert sc.redirects[1..] == [] && RedirectAll(w, [], st, t.(stdin := data)) == Val(t.(stdin := data), st);
    RedirectedCall(w, name, sc.redirects, st, st, stdin, data);
  }

  // ---------------------------------------------------------------- output to a file

  /** `name >f 2>&1` */
  function Logging(name: string, f: string): SimpleCommand {
    SimpleCommand([], Some(Literal(name)), [], [ScopeLaws.OutTo(Literal(f)), ScopeLaws.ErrToOut])
  }

  lemma LoggingIsPrinted(name: string, f: string)
    requires PlainName(name) && PlainValue(f)
    ensures Print.WfScript([Simple(Logging(name, f))], false)
    ensures Print.PrintScript([Simple(Logging(name, f))]) ==
            " " + Print.LiteralText(name) + " > " + Print.LiteralText(f) + " 2>& 1 ;"
  {
    hide Print.LiteralText;
    hide Print.Render;
    hide Print.ToksScript;
    hide Print.ToksSimple;
    hide Print.ToksRedirects;
    hide Print.WfScript;
    var sc := Logging(name, f);
    LoggingIsPrintable(name, f);
    var end := Print.Cons(LexSpec.TSemi, Print.AtEof);
    var more := Print.Cons(LexSpec.TRedirect(Some(2), LexSpec.GreaterAmp), Print.Cons(LexSpec.TWord("1"), end));
    var greater, file := LexSpec.TRedirect(None, LexSpec.Greater), LexSpec.TWord(Print.LiteralText(f));
    LoggingTokens(f, end);
    EndToEnd.LoneTokens(sc);
    BareTokens(name, sc.redirects, end);
    Rendered(Print.LiteralText(name), greater, Print.LiteralText(f), more);
    GreaterText();
    DupText(end);
    assert Print.Render(end, false) == " ;" by { EndText(); }
  }

  lemma GreaterText()
    ensures Print.KText(LexSpec.TRedirect(None, LexSpec.Greater)) == ">"
  {
  }

  lemma EndText()
    ensures Print.Render(Print.Cons(LexSpec.TSemi, Print.AtEof), false) == " ;"
  {
  }

  lemma LoggingIsPrintable(name: string, f: string)
    requires PlainName(name) && PlainValue(f)
    ensures Print.WfScript([Simple(Logging(name, f))], false)
  {
    var sc, c := Logging(name, f), Simple(Logging(name, f));
    assert Print.WfWord(Literal(f), false);
    assert Print.WfRedirect(sc.redirects[0], false) && Print.WfRedirect(sc.redirects[1], false);
    assert Print.WfSimple(sc, false);
    assert Print.WfPipe(c, false) && Print.WfItem(c, false);
  }

  lemma LoggingTokens(f: string, end: Print.Toks)
    ensures Print.ToksRedirects([ScopeLaws.OutTo(Literal(f)), ScopeLaws.ErrToOut], end) ==
            Print.Cons(LexSpec.TRedirect(None, LexSpec.Greater), Print.Cons(LexSpec.TWord(Print.LiteralText(f)),
              Print.Cons(LexSpec.TRedirect(Some(2), LexSpec.GreaterAmp), Print.Cons(LexSpec.TWord("1"), end))))
  {
    hide Print.LiteralText;
    var rs := [ScopeLaws.OutTo(Literal(f)), ScopeLaws.ErrToOut];
    OneAndTwo();
    assert rs[1..] == [rs[1]] && [rs[1]][1..] == [] && Print.ToksRedirects([], end) == end;
    var more := Print.ToksRedirect(rs[1], end);
    assert Print.ToksRedirects([rs[1]], end) == more;
    EndToEnd.NameToken(f, more);
  }

  lemma OneAndTwo()
    ensures D.Show(1) == "1" && D.Show(2) == "2"
  {
  }

  lemma DupOperator()
    ensures Print.KText(LexSpec.TRedirect(Some(2), LexSpec.GreaterAmp)) == "2>&"
  {
    OneAndTwo();
  }

  lemma DupText(tl: Print.Toks)
    ensures Print.Render(Print.Cons(LexSpec.TRedirect(Some(2), LexSpec.GreaterAmp), Print.Cons(LexSpec.TWord("1"), tl)), false) ==
            " 2>& 1" + Print.Render(tl, false)
  {
    hide Print.Render;
    hide Print.KText;
    var op, two := LexSpec.TRedirect(Some(2), LexSpec.GreaterAmp), Print.Cons(LexSpec.TWord("1"), tl);
    PrintTokens.RenderCons(op, two, false);
    PrintTokens.RenderCons(LexSpec.TWord("1"), tl, false);
    DupOperator();
    WordTexts("1");
    var r := Print.Render(tl, false);
    assert " " + ("2>&" + (" " + ("1" + r))) == " 2>& 1" + r;
  }

  /** From text: `name >f 2>&1` shows nothing, and afterwards f holds everything the program wrote, on
      either descriptor, in the order in which it was written. */
  lemma BothToFileFromText(w: World, name: string, f: string, st: St, stdin: string)
    requires PlainName(name) && PlainValue(f) && IsProgram(w, name, st.aliases, st.env)
    requires var a, path := w.program(Call([name], stdin, st)), P.Resolve(st.cwd, f);
             && M.Route(st.mounts, P.Normalize(path)).None? && !L.IsDevice(a.st.root, path)
             && V.WriteAt(a.st.root, path, TextOf(a.log)).0.Ok?
    ensures var a, path := w.program(Call([name], stdin, st)), P.Resolve(st.cwd, f);
            var run := Sem.Exec(w, " " + Print.LiteralText(name) + " > " + Print.LiteralText(f) + " 2>& 1 ;", st, stdin, []);
            && run.log == [] && run.code == Seen(st, a).code
            && V.ReadAt(run.st.root, path) == T.Ok(TextOf(a.log))
  {
    hide Sem.Exec;
    hide RunScript;
    hide RunCommand;
    hide Print.PrintScript;
    hide Print.WfScript;
    hide Print.LiteralText;
    hide IsProgram;
    hide PlainName;
    hide P.Resolve;
    hide V.ReadAt;
    hide V.WriteAt;
    var sc := Logging(name, f);
    LoggingIsPrinted(name, f);
    ExecLaws.PrintedRuns(w, [Simple(sc)], st, stdin);
    LoggingRuns(w, name, f, st, stdin);
    RunsSimple(w, sc, st, stdin);
    ExecLaws.LoneCommand(w, Simple(sc), st, stdin);
  }

  lemma LoggingRuns(w: World, name: string, f: string, st: St, stdin: string)
    requires PlainName(name) && PlainValue(f) && IsProgram(w, name, st.aliases, st.env)
    requires var a, path := w.program(Call([name], stdin, st)), P.Resolve(st.cwd, f);
             && M.Route(st.mounts, P.Normalize(path)).None? && !L.IsDevice(a.st.root, path)
             && V.WriteAt(a.st.root, path, TextOf(a.log)).0.Ok?
    ensures var a, path := w.program(Call([name], stdin, st)), P.Resolve(st.cwd, f);
            var run := RunSimple(w, Logging(name, f), st, stdin);
            run.log == [] && run.code == a.code && V.ReadAt(run.st.root, path) == T.Ok(TextOf(a.log))
  {
    hide Print.WfWord;
    hide P.Resolve;
    hide V.ReadAt;
    hide V.WriteAt;
    hide L.IsDevice;
    hide Dispatch;
    hide RedirectAll;
    hide M.Route;
    var a, path, sc := w.program(Call([name], stdin, st)), P.Resolve(st.cwd, f), Logging(name, f);
    var t0 := Table(ParentOut, ParentErr, stdin, []);
    var t := Table(File(0), File(0), stdin, [OpenFile(path, false)]);
    assert AssignAll(w, [], st) == Val([], st) && ExpandWords(w, [], st) == Val([], st);
    LiteralValue(w, name, st);
    LiteralValue(w, f, st);
    ScopeLaws.OrderMatters(w, Literal(f), st, t0, f, st);
    assert t0.files + [OpenFile(path, false)] == t.files;
    assert RedirectAll(w, sc.redirects, st, t0) == Val(t, st);
    assert Unalias(st.aliases, name) + [] == [name];
    ProgramAnswers(w, name, [name], stdin, st, st.aliases);
    var run := Dispatch(w, name, [name], stdin, st);
    FileFlushed(w, t, run, path);
    ScopeLaws.NothingInherited(t, run.log);
    assert RunSimple(w, sc, st, stdin) == Launch(w, [name], t, [], st);
  }

  lemma FileFlushed(w: World, t: Table, run: Run, path: string)
    requires t.out == File(0) && t.err == File(0) && t.files == [OpenFile(path, false)]
    requires M.Route(run.st.mounts, P.Normalize(path)).None? && !L.IsDevice(run.st.root, path)
    requires V.WriteAt(run.st.root, path, TextOf(run.log)).0.Ok?
    ensures var ev := FlushAll(w, t, run.log, 0, run.st);
            ev.Val? && V.ReadAt(ev.st.root, path) == T.Ok(TextOf(run.log))
  {
    hide V.ReadAt;
    hide V.WriteAt;
    hide L.IsDevice;
    hide M.Route;
    hide Onto;
    OntoBothIsText(run.log);
    assert Contents(t, run.log, 0) == TextOf(run.log);
    assert "" + TextOf(run.log) == TextOf(run.log);
    L.WrittenIsRead(run.st.root, path, TextOf(run.log));
    assert FlushAll(w, t, run.log, 1, FlushOne(w, t.files[0], TextOf(run.log), run.st).st).Val?;
  }

  // ---------------------------------------------------------------- several files

  /** Two reads tell the same: both succeed with the same data, or neither does. */
  predicate SameText(a: T.Result<string>, b: T.Result<string>) {
    a.Ok? == b.Ok? && (a.Ok? ==> a.value == b.value)
  }

  /** Writing at one location leaves what any other one holds. */
  lemma WriteElsewhere(root: T.Node, path: string, data: string, other: string)
    requires root.Dir? && V.WriteAt(root, path, data).0.Ok? && P.Canon(path) != P.Canon(other)
    ensures var after := V.WriteAt(root, path, data).1;
            SameText(V.ReadAt(root, other), V.ReadAt(after, other)) && (L.IsDevice(after, other) <==> L.IsDevice(root, other))
  {
    hide V.WriteAt;
    hide V.ReadAt;
    hide L.IsDevice;
    var after, q := V.WriteAt(root, path, data).1, P.Canon(other);
    L.WriteAtRefines(root, path, data);
    L.ReadAtRefines(root, other);
    L.ReadAtRefines(after, other);
    L.ReadLaw(root, q);
    L.ReadLaw(after, q);
    DeviceInMap(root, other);
    DeviceInMap(after, other);
  }

  lemma DeviceInMap(root: T.Node, path: string)
    ensures var m, p := T.Flatten(root), P.Canon(path); L.IsDevice(root, path) <==> p in m && m[p].DeviceE?
  {
    P.CanonIsCanonical(path);
    P.ComponentsOfRender(P.Canon(path));
    T.WalkRefinesLookup(root, P.Canon(path), P.Normalize(path));
  }

  /** Unmounted paths, no devices, all at different locations, from the i-th on. */
  predicate SeparateFiles(st: St, files: seq<OpenFile>, i: nat) {
    && (forall k :: i <= k < |files| ==> ScopeLaws.Plain(st, files[k].path))
    && (forall j, k :: i <= j < k < |files| ==> P.Canon(files[j].path) != P.Canon(files[k].path))
  }

  /** The text that a file has after a command. */
  function Written(f: OpenFile, before: T.Result<string>, text: string): string {
    if f.append && before.Ok? then before.value + text else text
  }

  lemma OneFileFlushed(w: World, f: OpenFile, data: string, st: St)
    requires ScopeLaws.Plain(st, f.path) && FlushOne(w, f, data, st).Val?
    ensures var s1, text := FlushOne(w, f, data, st).st, Written(f, V.ReadAt(st.root, f.path), data);
            && V.WriteAt(st.root, f.path, text).0.Ok? && s1 == st.(root := V.WriteAt(st.root, f.path, text).1)
            && V.ReadAt(s1.root, f.path) == T.Ok(text)
  {
    hide V.WriteAt;
    hide V.ReadAt;
    hide L.IsDevice;
    hide M.Route;
    var text := Written(f, V.ReadAt(st.root, f.path), data);
    assert "" + data == data;
    L.WrittenIsRead(st.root, f.path, text);
  }

  /** What no file from the i-th on names is read as before. */
  lemma {:induction false} OthersUntouched(w: World, t: Table, log: Log, i: nat, st: St, other: string)
    requires SeparateFiles(st, t.files, i) && FlushAll(w, t, log, i, st).Val?
    requires forall k :: i <= k < |t.files| ==> P.Canon(t.files[k].path) != P.Canon(other)
    ensures SameText(V.ReadAt(st.root, other), V.ReadAt(FlushAll(w, t, log, i, st).st.root, other))
    decreases |t.files| - i
  {
    hide V.WriteAt;
    hide V.ReadAt;
    hide L.IsDevice;
    hide M.Route;
    hide FlushOne;
    if i < |t.files| {
      var f, data := t.files[i], Contents(t, log, i);
      OneFileFlushed(w, f, data, st);
      var s1 := FlushOne(w, f, data, st).st;
      var text := Written(f, V.ReadAt(st.root, f.path), data);
      WriteElsewhere(st.root, f.path, text, other);
      StillSeparate(st, s1, t.files, i, text);
      OthersUntouched(w, t, log, i + 1, s1, other);
    }
  }

  lemma StillSeparate(st: St, s1: St, files: seq<OpenFile>, i: nat, text: string)
    requires i < |files| && SeparateFiles(st, files, i) && V.WriteAt(st.root, files[i].path, text).0.Ok?
    requires s1 == st.(root := V.WriteAt(st.root, files[i].path, text).1)
    ensures SeparateFiles(s1, files, i + 1)
  {
    hide V.WriteAt;
    hide L.IsDevice;
    hide M.Route;
    forall k | i + 1 <= k < |files| ensures ScopeLaws.Plain(s1, files[k].path) {
      WriteElsewhere(st.root, files[i].path, text, files[k].path);
    }
  }

  /** Every file that a command opened has, in the end, exactly what its descriptors sent there: behind
      what it held, if it was opened to append. */
  lemma {:induction false} EachFileHolds(w: World, t: Table, log: Log, i: nat, st: St, k: nat)
    requires i <= k < |t.files| && SeparateFiles(st, t.files, i) && FlushAll(w, t, log, i, st).Val?
    ensures V.ReadAt(FlushAll(w, t, log, i, st).st.root, t.files[k].path) ==
            T.Ok(Written(t.files[k], V.ReadAt(st.root, t.files[k].path), Contents(t, log, k)))
    decreases |t.files| - i
  {
    hide V.WriteAt;
    hide V.ReadAt;
    hide L.IsDevice;
    hide M.Route;
    hide FlushOne;
    hide Contents;
    var f, data := t.files[i], Contents(t, log, i);
    OneFileFlushed(w, f, data, st);
    var s1 := FlushOne(w, f, data, st).st;
    var text := Written(f, V.ReadAt(st.root, f.path), data);
    StillSeparate(st, s1, t.files, i, text);
    if k == i {
      OthersUntouched(w, t, log, i + 1, s1, f.path);
    } else {
      WriteElsewhere(st.root, f.path, text, t.files[k].path);
      EachFileHolds(w, t, log, i + 1, s1, k);
    }
  }

  /** Which redirections append: `>>`, and no other. */
  lemma {:induction false} OpenedToAppend(w: World, rs: seq<Redirect>, st: St, t: Table)
    requires RedirectAll(w, rs, st, t).Val?
    ensures var ev := RedirectAll(w, rs, st, t).value;
            && |ev.files| == |t.files| + |OutputKinds(rs)| && ev.files[..|t.files|] == t.files
            && forall k :: 0 <= k < |OutputKinds(rs)| ==> (ev.files[|t.files| + k].append <==> OutputKinds(rs)[k] == Append)
    decreases |rs|
  {
    hide ExpandWord;
    hide ExpandHeredoc;
    hide ReadFile;
    hide P.Resolve;
    if rs != [] {
      var one := Redirected(w, rs[0], st, t);
      OpenedToAppend(w, rs[1..], one.st, one.value);
      var files := RedirectAll(w, rs, st, t).value.files;
      if rs[0].target.ToWord? && !rs[0].kind.Read? {
        assert |one.value.files| == |t.files| + 1;
        assert files[|t.files|] == one.value.files[|t.files|];
        forall k | 0 <= k < |OutputKinds(rs)| ensures files[|t.files| + k].append <==> OutputKinds(rs)[k] == Append {
          if k > 0 { assert OutputKinds(rs)[k] == OutputKinds(rs[1..])[k - 1]; }
        }
      }
    }
  }

  /** The kinds of the redirections that open files for output, in order. */
  function OutputKinds(rs: seq<Redirect>): seq<RedirectKind> {
    if rs == [] then []
    else (if rs[0].target.ToWord? && !rs[0].kind.Read? then [rs[0].kind] else []) + OutputKinds(rs[1..])
  }

  // ---------------------------------------------------------------- texts that are not run

  /** From text: a script with a syntax error is not run at all, though commands stand in front of the
      error; the heredocs of those commands wait for the next text. */
  lemma RefusedFromText(w: World, name: string, ds: seq<Heredocs.Doc>, st: St, stdin: string)
    requires Print.WfWord(Literal(name), false) && HeredocText.WfDocs(ds) && ds != []
    ensures var src := HeredocText.CommandText(name, ds) + ";;";
            && Sem.Exec(w, src, st, stdin, []) == Run(Err(ParseFailure(LexSpec.UnexpectedToken(LexSpec.TSemiSemi))), st, [])
            && Sem.QueueAfter(src, []) == HeredocText.Items(ds)
  {
    hide ParseSpec.Parse;
    hide HeredocText.CommandText;
    hide Print.WfWord;
    hide HeredocText.WfDocs;
    hide RunScript;
    HeredocText.ErrorLeavesBodies(name, ds);
  }

  /** From text: a heredoc body that aborts panics the shell before anything is run. */
  lemma AbortedFromText(w: World, name: string, ds: seq<Heredocs.Doc>, st: St, stdin: string)
    requires Print.WfWord(Literal(name), false) && HeredocText.WfDocs(ds) && ds != []
    requires !Heredocs.Decode(HeredocText.Items(ds), |ds|)
    ensures Sem.Exec(w, HeredocText.CommandText(name, ds), st, stdin, []) == Run(Err(Panicked), st, [])
    ensures Sem.QueueAfter(HeredocText.CommandText(name, ds), []) == []
  {
    hide ParseSpec.Parse;
    hide HeredocText.CommandText;
    hide Print.WfWord;
    hide HeredocText.WfDocs;
    hide Heredocs.Decode;
    hide RunScript;
    HeredocText.HeredocsAbort(name, ds);
  }
}
