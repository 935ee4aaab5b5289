/** A command with any number of heredocs, from its text to its tree. */
module HeredocText {
  import opened Ast
  import opened Decimal
  import opened LexSpec
  import opened ParseSpec
  import opened Print
  import opened Heredocs
  import PrintLex
  import PrintTokens
  import RoundTrip
  import opened Scanners
  import opened Borrowing

  // ---------------------------------------------------------------- the text

  /** A delimiter that is read back as it is written. */
  predicate WfDelimiter(p: Pending) {
    if p.quoted then '\'' !in p.delimiter && '\n' !in p.delimiter
    else
      && p.delimiter != "" && p.delimiter[0] != '\'' && p.delimiter[0] != '"'
      && forall i :: 0 <= i < |p.delimiter| ==> p.delimiter[i] !in "\n \t"
  }

  function DelimiterText(p: Pending): string {
    if p.quoted then "'" + p.delimiter + "'" else p.delimiter
  }

  /** The operator and its delimiter. */
  function OpText(p: Pending): string {
    "<<" + ((if p.stripTabs then "- " else " ") + DelimiterText(p))
  }

  function OpsText(ds: seq<Doc>): string {
    if ds == [] then "" else " " + OpText(ds[0].p) + OpsText(ds[1..])
  }

  // ---------------------------------------------------------------- the tokens

  lemma {:induction false} DelimiterRunOf(d: string, r: string)
    requires forall i :: 0 <= i < |d| ==> d[i] !in "\n \t"
    requires r != "" && r[0] in "\n \t"
    ensures DelimiterRun(d + r) == |d|
  {
    if d == "" {
      assert d + r == r;
    } else {
      assert (d + r)[1..] == d[1..] + r;
      DelimiterRunOf(d[1..], r);
    }
  }

  lemma DelimiterReads(p: Pending, r: string)
    requires WfDelimiter(p) && r != "" && r[0] in "\n \t"
    ensures HeredocDelimiter(DelimiterText(p) + r) == Delimiter(p.delimiter, p.quoted, |DelimiterText(p)|)
  {
    hide DelimiterRun;
    var s := DelimiterText(p) + r;
    if p.quoted {
      assert s[1..] == p.delimiter + ("'" + r);
      PrintLex.BeforeOf(p.delimiter, '\'', "'" + r);
      assert s[1..][..|p.delimiter|] == p.delimiter;
    } else {
      DelimiterRunOf(p.delimiter, r);
      assert s[..|p.delimiter|] == p.delimiter;
    }
  }

  lemma BlankThen(s: string)
    requires s != "" && s[0] != ' ' && s[0] != '\t'
    ensures Blanks(" " + s) == 1
  {
    assert (" " + s)[1..] == s;
  }

  lemma DelimiterHead(p: Pending, r: string)
    requires WfDelimiter(p)
    ensures var s := DelimiterText(p) + r; s != "" && s[0] != ' ' && s[0] != '\t'
  {
  }

  lemma OperatorReads(p: Pending, r: string)
    requires WfDelimiter(p) && r != "" && r[0] in "\n \t"
    ensures HeredocToken((if p.stripTabs then "- " else " ") + DelimiterText(p) + r, None) ==
            Tok(THereDoc(None, p.delimiter, p.quoted, p.stripTabs), 0, |OpText(p)| - 2)
  {
    hide HeredocDelimiter;
    hide DelimiterText;
    hide WfDelimiter;
    var d := DelimiterText(p) + r;
    var s := (if p.stripTabs then "- " else " ") + DelimiterText(p) + r;
    DelimiterReads(p, r);
    DelimiterHead(p, r);
    BlankThen(d);
    if p.stripTabs {
      assert s == "- " + d && s[1..] == " " + d && s[2..] == d;
    } else {
      assert s == " " + d && s[0..] == s && s[1..] == d;
    }
  }

  lemma {:induction false} DoubleLess(x: string)
    ensures LexHere("<<" + x) ==
            match HeredocToken(x, None)
            case Tok(k, _, end) => Tok(k, 0, end + 2)
            case LexErr(e) => LexErr(e)
  {
    hide HeredocToken;
    hide LexWord;
    var s := "<<" + x;
    assert s[1..][1..] == x && s[0 + 1..] == s[1..];
    assert s[0] == '<' && s[1] == '<' && s[1..][0] == '<';
    assert DigitRun(s) == 0 && s[..0] == "" && U32("") == None;
    assert LexHere(s) == LexRedirect(s);
    assert LexRedirect(s) == Widen(LessToken(s[1..], None), 1);
  }

  lemma LexHeredoc(p: Pending, r: string)
    requires WfDelimiter(p) && r != "" && r[0] in "\n \t"
    ensures Lex(" " + (OpText(p) + r), false) ==
            Tok(THereDoc(None, p.delimiter, p.quoted, p.stripTabs), 1, 1 + |OpText(p)|)
  {
    hide HeredocToken;
    hide DelimiterText;
    hide WfDelimiter;
    hide Lex;
    hide LexHere;
    var x := (if p.stripTabs then "- " else " ") + DelimiterText(p) + r;
    var s := OpText(p) + r;
    assert s == "<<" + x;
    OperatorReads(p, r);
    DoubleLess(x);
    PrintTokens.LexStart(s);
    PrintTokens.LexBehindBlank(s);
  }

  // ---------------------------------------------------------------- the parser's rounds

  function RedirectOf(p: Pending): Redirect {
    Redirect(Some(0), Read, ToHeredoc(Heredoc(p.delimiter, p.quoted, p.stripTabs,
                                              if p.quoted then LiteralBody("") else PartsBody([]))))
  }

  function RedirectsOf(ds: seq<Doc>): seq<Redirect> {
    if ds == [] then [] else [RedirectOf(ds[0].p)] + RedirectsOf(ds[1..])
  }

  predicate WfDocs(ds: seq<Doc>) {
    forall d :: d in ds ==> WfDoc(d) && WfDelimiter(d.p)
  }

  lemma OpsThenNewline(ds: seq<Doc>, r: string)
    ensures var s := OpsText(ds) + ("\n" + r); s != "" && s[0] in "\n \t"
  {
  }

  lemma OpsSplit(ds: seq<Doc>, r: string)
    requires ds != []
    ensures OpsText(ds) + ("\n" + r) == " " + (OpText(ds[0].p) + (OpsText(ds[1..]) + ("\n" + r)))
  {
    hide OpText;
  }

  lemma HeredocRedirect(p: Pending, r: string, ps: PS)
    requires WfDelimiter(p) && r != "" && r[0] in "\n \t" && ps.rest == " " + (OpText(p) + r)
    ensures Peek(ps) == Good(THereDoc(None, p.delimiter, p.quoted, p.stripTabs), ps)
    ensures Lex(ps.rest, false).Tok? && Lex(ps.rest, false).kind.THereDoc?
    ensures ParseRedirect(ps) == Good(RedirectOf(p), PS(r, ps.pend + [p], ps.cell))
  {
    hide Lex;
    hide OpText;
    hide WfDelimiter;
    hide ParseWord;
    hide ParseDupRedirect;
    LexHeredoc(p, r);
    PrintTokens.DropBlankHead(OpText(p), r);
    assert Pending(p.delimiter, p.quoted, p.stripTabs) == p;
  }

  lemma HeredocRound(p: Pending, r: string, ps: PS, sc: SimpleCommand)
    requires WfDelimiter(p) && r != "" && r[0] in "\n \t" && ps.rest == " " + (OpText(p) + r)
    ensures SimpleLoop(ps, sc) ==
            SimpleLoop(PS(r, ps.pend + [p], ps.cell), sc.(redirects := sc.redirects + [RedirectOf(p)]))
  {
    hide Lex;
    hide OpText;
    hide WfDelimiter;
    hide FunctionLookahead;
    hide ParseWord;
    hide ParseRedirect;
    hide ParseAssignment;
    hide RedirectOf;
    HeredocRedirect(p, r, ps);
  }

  lemma NoOperators(r: string, rs: seq<Redirect>, pend: seq<Pending>)
    ensures OpsText([]) + ("\n" + r) == "\n" + r
    ensures rs + RedirectsOf([]) == rs && pend + PendingOf([]) == pend
  {
  }

  lemma OneOperatorMore(ds: seq<Doc>, rs: seq<Redirect>, pend: seq<Pending>)
    requires ds != []
    ensures pend + [ds[0].p] + PendingOf(ds[1..]) == pend + PendingOf(ds)
    ensures rs + [RedirectOf(ds[0].p)] + RedirectsOf(ds[1..]) == rs + RedirectsOf(ds)
  {
    hide RedirectOf;
  }

  lemma {:induction false} HeredocRounds(ds: seq<Doc>, r: string, pend: seq<Pending>, cell: Cell, sc: SimpleCommand)
    requires WfDocs(ds)
    ensures SimpleLoop(PS(OpsText(ds) + ("\n" + r), pend, cell), sc) ==
            Good(sc.(redirects := sc.redirects + RedirectsOf(ds)), PS("\n" + r, pend + PendingOf(ds), cell))
    decreases |ds|
  {
    hide SimpleLoop;
    hide WfDoc;
    hide WfDelimiter;
    hide OpsText;
    hide RedirectsOf;
    hide PendingOf;
    hide RedirectOf;
    hide OpText;
    var s := OpsText(ds) + ("\n" + r);
    if ds == [] {
      NoOperators(r, sc.redirects, pend);
      NewlineStops(PS(s, pend, cell), r, sc);
    } else {
      var p, more := ds[0].p, OpsText(ds[1..]) + ("\n" + r);
      assert ds[0] in ds;
      OpsSplit(ds, r);
      OpsThenNewline(ds[1..], r);
      HeredocRound(p, more, PS(s, pend, cell), sc);
      HeredocRounds(ds[1..], r, pend + [p], cell, sc.(redirects := sc.redirects + [RedirectOf(p)]));
      OneOperatorMore(ds, sc.redirects, pend);
    }
  }

  lemma LexNewline(r: string)
    ensures Lex("\n" + r, false) == Tok(TNewline, 0, 1)
  {
    hide LexHere;
    PrintTokens.LexStart("\n" + r);
    assert LexHere("\n" + r) == Tok(TNewline, 0, 1) by { NewlineHere("\n" + r); }
  }

  lemma NewlineHere(s: string)
    requires s != "" && s[0] == '\n'
    ensures LexHere(s) == Tok(TNewline, 0, 1)
  {
  }

  lemma NewlineStops(ps: PS, r: string, sc: SimpleCommand)
    requires ps.rest == "\n" + r
    ensures SimpleLoop(ps, sc) == Good(sc, ps)
  {
    hide Lex;
    LexNewline(r);
  }

  // ---------------------------------------------------------------- the whole command

  function CommandText(name: string, ds: seq<Doc>): string {
    LiteralText(name) + (OpsText(ds) + ("\n" + DocsText(ds)))
  }

  function Items(ds: seq<Doc>): (r: seq<QueueItem>)
    ensures |r| == |ds|
    ensures forall i :: 0 <= i < |ds| ==> r[i] == QueueItem(ds[i].p.quoted, Verbatim(ds[i].lines))
  {
    if ds == [] then [] else [QueueItem(ds[0].p.quoted, Verbatim(ds[0].lines))] + Items(ds[1..])
  }

  /** The first word becomes the name. */
  lemma NameRound(name: string, more: string)
    requires WfWord(Literal(name), false) && more != "" && more[0] == ' '
    requires Lex(more, false).Tok? && !Lex(more, false).kind.TLParen?
    ensures var s := LiteralText(name) + more;
            && Peek(RoundTrip.At(s)) == Good(TWord(LiteralText(name)), RoundTrip.At(s))
            && SimpleLoop(RoundTrip.At(s), EmptySimple) ==
               SimpleLoop(RoundTrip.At(more), EmptySimple.(name := Some(Literal(name))))
            && !IsReserved(LiteralText(name))
  {
    hide LiteralText;
    hide WordOf;
    hide Lex;
    hide IsReserved;
    hide SplitAssignment;
    hide PrintTokens.WordTok;
    var w, t := Literal(name), LiteralText(name);
    var s := t + more;
    PrintTokens.WordIsTok(w, false);
    PrintTokens.LexWordTok(t, more);
    PrintLex.DropHead(t, more);
    RoundTrip.NameIsAName(w, false);
    RoundTrip.WordOfParses(w, false);
    assert EmptySimple.name.None?;
  }

  /** A command in front of the rest of a script, if the rest parses. */
  function Prepended(c: Command, r: Res<seq<Command>, PS>): Res<seq<Command>, PS> {
    match r
    case Good(cs, st) => Good([c] + cs, st)
    case Bad(w, q) => Bad(w, q)
  }

  /** What a lone simple command does on its way through the grammar. */
  lemma OneCommand(ps: PS, sc: SimpleCommand, t: string, p1: PS, p2: PS)
    requires Peek(ps) == Good(TWord(t), ps) && !IsReserved(t)
    requires SimpleLoop(ps, EmptySimple) == Good(sc, p1)
    requires Peek(p1).Good? && Peek(p1).value in {TNewline, TEof} && SkipNewlines(p1) == Good((), p2)
    ensures SkipNewlines(ps) == Good((), ps) && ScriptLoop(ps) == Prepended(Simple(sc), ScriptLoop(p2))
  {
    hide Lex;
    hide SimpleLoop;
    hide IsReserved;
    hide Flush;
    assert SkipNewlines(ps) == Good((), ps);
    assert ParseCommand(ps) == Good(Simple(sc), p1);
    assert ParsePipeline(ps, false) == Good(Simple(sc), p1);
    assert ParsePipelineCmd(ps) == Good(Simple(sc), p1);
    assert ListLoop(Simple(sc), p1) == Good(Simple(sc), p1);
    assert ParseListItem(ps) == Good(Simple(sc), p1);
    assert SkipSeparator(p1) == Good(false, p1);
  }

  lemma NoCommand(ps: PS)
    requires ps.rest == ""
    ensures Peek(ps) == Good(TEof, ps) && SkipNewlines(ps) == Good((), ps) && ScriptLoop(ps) == Good([], ps)
  {
    hide Lex;
    NothingToSkip();
  }

  /** The newline behind the command collects the bodies. */
  lemma NewlineCollects(ds: seq<Doc>, rest: string)
    requires WfDocs(ds) && ds != [] && Lex(rest, false).Tok? && !Lex(rest, false).kind.TNewline?
    ensures SkipNewlines(PS("\n" + (DocsText(ds) + rest), PendingOf(ds), Free([]))) ==
            Good((), PS(rest, [], Free(Items(ds))))
  {
    hide Lex;
    hide OneBody;
    hide WfDoc;
    hide WfDelimiter;
    hide AllBodies;
    var r := DocsText(ds) + rest;
    LexNewline(r);
    assert ("\n" + r)[1..] == r;
    AllBodiesCollect(ds, rest);
    PrintLex.DropHead(DocsText(ds), rest);
    var p1, p2 := PS(r, PendingOf(ds), Free([])), PS(rest, [], Free(Items(ds)));
    assert [] + Queued(PendingOf(ds), BodyTexts(ds)) == Items(ds);
    assert Flush(p1) == Good((), p2);
    assert SkipNewlines(p2) == Good((), p2);
  }

  lemma NothingToSkip()
    ensures Lex("", false) == Tok(TEof, 0, 0)
  {
  }

  lemma DecodeTail(ds: seq<Doc>)
    requires Decode(Items(ds), |ds|) && ds != []
    ensures BodyOf(Items(ds)[0]).Good? && Decode(Items(ds[1..]), |ds[1..]|)
  {
    hide BodyOf;
    forall k | 0 <= k < |ds[1..]| ensures BodyOf(Items(ds[1..])[k]).Good? {
      assert Items(ds[1..])[k] == Items(ds)[k + 1];
    }
  }

  function WithBody(p: Pending, item: QueueItem): Redirect
    requires BodyOf(item).Good?
  {
    RedirectOf(p).(target := ToHeredoc(Heredoc(p.delimiter, p.quoted, p.stripTabs, BodyOf(item).value)))
  }

  /** The redirections with their bodies in place. */
  function FilledOf(ds: seq<Doc>): seq<Redirect>
    requires Decode(Items(ds), |ds|)
  {
    if ds == [] then []
    else
      DecodeTail(ds);
      [WithBody(ds[0].p, Items(ds)[0])] + FilledOf(ds[1..])
  }

  lemma FillOne(p: Pending, item: QueueItem, rs: seq<Redirect>, items: seq<QueueItem>, more: seq<Redirect>)
    requires BodyOf(item).Good? && FillRedirects(rs, items) == Good(more, [])
    ensures FillRedirects([RedirectOf(p)] + rs, [item] + items) == Good([WithBody(p, item)] + more, [])
  {
    hide BodyOf;
    assert ([RedirectOf(p)] + rs)[1..] == rs && ([item] + items)[1..] == items;
  }

  lemma {:induction false} FillThem(ds: seq<Doc>)
    requires Decode(Items(ds), |ds|)
    ensures FillRedirects(RedirectsOf(ds), Items(ds)) == Good(FilledOf(ds), [])
    decreases |ds|
  {
    hide BodyOf;
    hide Decode;
    hide FillRedirects;
    hide WithBody;
    if ds == [] {
      assert FillRedirects([], []) == Good([], []) by { NothingToFill(); }
    } else {
      DecodeTail(ds);
      FillThem(ds[1..]);
      FillOne(ds[0].p, Items(ds)[0], RedirectsOf(ds[1..]), Items(ds[1..]), FilledOf(ds[1..]));
      assert Items(ds) == [Items(ds)[0]] + Items(ds[1..]);
    }
  }

  lemma NothingToFill()
    ensures FillRedirects([], []) == Good([], [])
  {
  }

  /** The line of operators and the bodies behind it, in front of whatever comes next. */
  lemma CommandThen(name: string, ds: seq<Doc>, rest: string)
    requires WfWord(Literal(name), false) && WfDocs(ds) && ds != []
    requires Lex(rest, false).Tok? && !Lex(rest, false).kind.TNewline?
    ensures ParseScript(RoundTrip.At(CommandText(name, ds) + rest)) ==
            Prepended(Simple(SimpleCommand([], Some(Literal(name)), [], RedirectsOf(ds))),
                      ScriptLoop(PS(rest, [], Free(Items(ds)))))
  {
    hide Lex;
    hide WfDoc;
    hide WfDelimiter;
    hide SimpleLoop;
    hide ScriptLoop;
    hide SkipNewlines;
    hide LiteralText;
    hide IsReserved;
    var docs := DocsText(ds) + rest;
    var tail := OpsText(ds) + ("\n" + docs);
    TextThen(name, ds, rest);
    FirstOperator(ds, docs);
    NameRound(name, tail);
    var sc0 := EmptySimple.(name := Some(Literal(name)));
    HeredocRounds(ds, docs, [], Free([]), sc0);
    assert [] + RedirectsOf(ds) == RedirectsOf(ds) && [] + PendingOf(ds) == PendingOf(ds);
    NewlineCollects(ds, rest);
    LexNewline(docs);
    OneCommand(RoundTrip.At(LiteralText(name) + tail), sc0.(redirects := RedirectsOf(ds)), LiteralText(name),
               PS("\n" + docs, PendingOf(ds), Free([])), PS(rest, [], Free(Items(ds))));
  }

  lemma TextThen(name: string, ds: seq<Doc>, rest: string)
    ensures CommandText(name, ds) + rest == LiteralText(name) + (OpsText(ds) + ("\n" + (DocsText(ds) + rest)))
  {
  }

  /** The tree of the line before its bodies are filled in, and the queue with all of them. */
  lemma HeredocsScript(name: string, ds: seq<Doc>)
    requires WfWord(Literal(name), false) && WfDocs(ds) && ds != []
    ensures ParseScript(RoundTrip.At(CommandText(name, ds))) ==
            Good([Simple(SimpleCommand([], Some(Literal(name)), [], RedirectsOf(ds)))], PS("", [], Free(Items(ds))))
  {
    hide ParseScript;
    hide LiteralText;
    hide ScriptLoop;
    hide Lex;
    hide WfDocs;
    hide WfWord;
    hide RedirectsOf;
    hide CommandText;
    var sc := SimpleCommand([], Some(Literal(name)), [], RedirectsOf(ds));
    NothingToSkip();
    NoCommand(PS("", [], Free(Items(ds))));
    CommandThen(name, ds, "");
    assert CommandText(name, ds) + "" == CommandText(name, ds) && [Simple(sc)] + [] == [Simple(sc)];
  }

  /** A line with any number of heredoc operators, followed by their bodies: every operator gets
      exactly its own lines, quoted or not, and nothing is left over. */
  lemma HeredocsParse(name: string, ds: seq<Doc>)
    requires WfWord(Literal(name), false) && WfDocs(ds) && ds != []
    requires Decode(Items(ds), |ds|)
    ensures Parse(CommandText(name, ds), Free([])) ==
            Good([Simple(SimpleCommand([], Some(Literal(name)), [], FilledOf(ds)))], Free([]))
  {
    hide ParseScript;
    hide Parse;
    hide FillScript;
    hide FillRedirects;
    hide Decode;
    hide WfDocs;
    hide WfWord;
    hide CommandText;
    hide RedirectsOf;
    hide FilledOf;
    var sc := SimpleCommand([], Some(Literal(name)), [], RedirectsOf(ds));
    HeredocsScript(name, ds);
    FillThem(ds);
    FillLone(sc, FilledOf(ds), Items(ds));
    ParsedThenFilled(CommandText(name, ds), [Simple(sc)], Items(ds), [Simple(sc.(redirects := FilledOf(ds)))]);
  }

  lemma {:induction false} AsManyBodies(ds: seq<Doc>)
    ensures |BodiesInRedirects(RedirectsOf(ds))| == |ds|
  {
    if ds != [] { AsManyBodies(ds[1..]); }
  }

  /** If one of the bodies aborts, so does the parse. */
  lemma HeredocsAbort(name: string, ds: seq<Doc>)
    requires WfWord(Literal(name), false) && WfDocs(ds) && ds != []
    requires !Decode(Items(ds), |ds|)
    ensures Parse(CommandText(name, ds), Free([])) == Bad(Aborted, Free([]))
  {
    hide ParseScript;
    hide Parse;
    hide FillScript;
    hide Decode;
    hide WfDocs;
    hide WfWord;
    hide CommandText;
    hide RedirectsOf;
    var sc := SimpleCommand([], Some(Literal(name)), [], RedirectsOf(ds));
    HeredocsScript(name, ds);
    AbortedFill(ds, sc);
    ParsedThenAborted(CommandText(name, ds), [Simple(sc)], Items(ds));
  }

  lemma AbortedFill(ds: seq<Doc>, sc: SimpleCommand)
    requires sc.redirects == RedirectsOf(ds) && !Decode(Items(ds), |ds|)
    ensures var r := FillScript([Simple(sc)], Items(ds)); r.Bad? && r.why == Aborted
  {
    hide FillScript;
    hide BodyOf;
    hide Decode;
    hide BodiesInScript;
    hide RedirectsOf;
    FillScriptLaw([Simple(sc)], Items(ds));
    LoneBodies(sc);
    AsManyBodies(ds);
  }

  lemma LoneBodies(sc: SimpleCommand)
    ensures BodiesInScript([Simple(sc)]) == BodiesInRedirects(sc.redirects)
  {
    hide BodiesInRedirects;
    assert [Simple(sc)][1..] == [] && BodiesInScript([]) == [];
    assert BodiesInCommand(Simple(sc)) == BodiesInRedirects(sc.redirects);
  }

  lemma ParsedThenAborted(s: string, script: seq<Command>, items: seq<QueueItem>)
    requires ParseScript(RoundTrip.At(s)) == Good(script, PS("", [], Free(items)))
    requires FillScript(script, items).Bad? && FillScript(script, items).why == Aborted
    ensures Parse(s, Free([])) == Bad(Aborted, Free([]))
  {
    hide ParseScript;
    hide FillScript;
  }

  lemma ParsedThenFilled(s: string, script: seq<Command>, items: seq<QueueItem>, filled: seq<Command>)
    requires ParseScript(RoundTrip.At(s)) == Good(script, PS("", [], Free(items)))
    requires FillScript(script, items) == Good(filled, [])
    ensures Parse(s, Free([])) == Good(filled, Free([]))
  {
    hide ParseScript;
    hide FillScript;
  }

  // ---------------------------------------------------------------- bodies lost to a substitution

  const Subst := SimpleCommand([], Some(Literal("x")), [CommandSubst([])], [])

  lemma EmptyParse(cell: Cell)
    requires cell.Free?
    ensures Parse("", cell) == Good([], Free([]))
  {
    hide ParseScript;
    NothingParses(cell);
    assert FillScript([], cell.items) == Good([], cell.items);
  }

  /** A substitution in a word throws away every body that is waiting. */
  lemma SubstitutionDrains(items: seq<QueueItem>)
    ensures WordOf("x", Free(items)) == Good(Literal("x"), Free(items))
    ensures WordOf("$()", Free(items)) == Good(CommandSubst([]), Free([]))
  {
    hide ParseDollar;
    hide Parse;
    RoundTrip.EscapedParts("x", "", "", Free(items));
    assert Escape("x") + "" == "x" && "" + "x" == "x" by { assert "x"[1..] == ""; }
    EmptyParse(Free(items));
    SubstitutionExtent("", "", Free(items));
    assert "$" + ("(" + ("" + (")" + ""))) == "$()" && Trim("") == "";
    assert "$()"[3..] == "" && [] + [CommandSubst([])] + [] == [CommandSubst([])];
    assert WordParts("", "", Free([])) == Good([], Free([]));
  }

  lemma SubstTokens()
    ensures Lex("x $()", false) == Tok(TWord("x"), 0, 1)
    ensures Lex(" $()", false) == Tok(TWord("$()"), 1, 4)
    ensures SplitAssignment("x").None? && !IsReserved("x")
  {
    hide Lex;
    hide PrintTokens.WordTok;
    var x, w := Literal("x"), CommandSubst([]);
    SubstTexts();
    PrintTokens.WordIsTok(x, false);
    PrintTokens.LexWordTok("x", " $()");
    RoundTrip.NameIsAName(x, false);
    PrintTokens.WordIsTok(w, false);
    PrintTokens.LexWordTok("$()", "");
    PrintTokens.LexBehindBlank("$()");
    assert "x" + " $()" == "x $()" && " " + "$()" == " $()" && "$()" + "" == "$()";
  }

  lemma SubstTexts()
    ensures WordText(Literal("x")) == "x" && WordText(CommandSubst([])) == "$()"
    ensures WfWord(Literal("x"), false) && WfWord(CommandSubst([]), false)
  {
    assert "x"[1..] == "" && Escape("x") == "x";
    assert Render(ToksScript([], AtEof), false) == "";
    assert PartText(CommandSubst([])) == SubstText([]) == "$(" + "" + ")";
  }

  /** A word token becomes the name, or the next argument. */
  lemma WordTokenRound(ps: PS, t: string, w: Word, cell: Cell, rest: string, sc: SimpleCommand)
    requires Lex(ps.rest, false).Tok? && Lex(ps.rest, false).kind == TWord(t) && ps.rest[Lex(ps.rest, false).end..] == rest
    requires sc.name.None? ==> SplitAssignment(t).None?
    requires Lex(rest, false).Tok? && !Lex(rest, false).kind.TLParen?
    requires WordOf(t, ps.cell) == Good(w, cell) && !w.Concat?
    ensures SimpleLoop(ps, sc) ==
            SimpleLoop(PS(rest, ps.pend, cell), if sc.name.None? then sc.(name := Some(w)) else sc.(args := sc.args + [w]))
  {
    hide Lex;
    hide WordOf;
    hide SplitAssignment;
    hide ParseAssignment;
    hide ParseRedirect;
    assert ParseWord(ps) == Good(w, PS(rest, ps.pend, cell));
    assert FunctionLookahead(ps, sc.name.None?) == Good((), ps);
  }

  lemma EndStops(ps: PS, sc: SimpleCommand)
    requires Peek(ps) == Good(TEof, ps)
    ensures SimpleLoop(ps, sc) == Good(sc, ps)
  {
    hide Lex;
  }

  lemma SubstCommand(items: seq<QueueItem>)
    ensures HeadIs("x $()", TWord("x"))
    ensures ScriptLoop(PS("x $()", [], Free(items))) == Good([Simple(Subst)], PS("", [], Free([])))
  {
    hide Lex;
    hide WordOf;
    hide IsReserved;
    hide SplitAssignment;
    hide ScriptLoop;
    hide SimpleLoop;
    hide SkipNewlines;
    var p0, p1, p2 := PS("x $()", [], Free(items)), PS(" $()", [], Free(items)), PS("", [], Free([]));
    SubstTokens();
    SubstitutionDrains(items);
    NoCommand(p2);
    assert "x $()"[1..] == " $()" && " $()"[4..] == "";
    var sc1 := EmptySimple.(name := Some(Literal("x")));
    WordTokenRound(p0, "x", Literal("x"), Free(items), " $()", EmptySimple);
    WordTokenRound(p1, "$()", CommandSubst([]), Free([]), "", sc1);
    assert [] + [CommandSubst([])] == Subst.args;
    EndStops(p2, Subst);
    OneCommand(p0, Subst, "x", p2, p2);
    assert [Simple(Subst)] + [] == [Simple(Subst)];
  }

  /** A command substitution behind a heredoc, in the same script, empties it: parsing the nested
      script takes the whole queue, and the operators in front of it are left without their bodies. */
  lemma BodiesLostToASubstitution(name: string, ds: seq<Doc>)
    requires WfWord(Literal(name), false) && WfDocs(ds) && ds != []
    ensures Parse(CommandText(name, ds) + "x $()", Free([])) ==
            Good([Simple(SimpleCommand([], Some(Literal(name)), [], RedirectsOf(ds))), Simple(Subst)], Free([]))
  {
    hide ParseScript;
    hide ScriptLoop;
    hide Lex;
    hide WfDocs;
    hide FillScript;
    var script := [Simple(SimpleCommand([], Some(Literal(name)), [], RedirectsOf(ds))), Simple(Subst)];
    SubstTokens();
    SubstCommand(Items(ds));
    CommandThen(name, ds, "x $()");
    assert [script[0]] + [script[1]] == script;
    RoundTrip.FillNothing(script);
  }

  lemma FillLone(sc: SimpleCommand, rs: seq<Redirect>, items: seq<QueueItem>)
    requires FillRedirects(sc.redirects, items) == Good(rs, [])
    ensures FillScript([Simple(sc)], items) == Good([Simple(sc.(redirects := rs))], [])
  {
    hide FillRedirects;
    assert FillScript([], []) == Good([], []);
    assert [Simple(sc)][1..] == [];
    assert FillCommand(Simple(sc), items) == Good(Simple(sc.(redirects := rs)), []);
    assert [Simple(sc.(redirects := rs))] + [] == [Simple(sc.(redirects := rs))];
  }

  lemma FirstOperator(ds: seq<Doc>, r: string)
    requires WfDocs(ds) && ds != []
    ensures var more := OpsText(ds) + ("\n" + r);
            more != "" && more[0] == ' ' && Lex(more, false).Tok? && Lex(more, false).kind.THereDoc?
  {
    hide Lex;
    hide WfDoc;
    hide WfDelimiter;
    var rest := OpsText(ds[1..]) + ("\n" + r);
    assert ds[0] in ds;
    OpsSplit(ds, r);
    OpsThenNewline(ds[1..], r);
    LexHeredoc(ds[0].p, rest);
  }

  // ---------------------------------------------------------------- an error behind a substitution

  lemma SemiTokens()
    ensures Lex("$() ;;", false) == Tok(TWord("$()"), 0, 3) && Lex(" ;;", false) == Tok(TSemiSemi, 1, 3)
    ensures SplitAssignment("$()").None? && !IsReserved("$()")
  {
    hide Lex;
    hide PrintTokens.WordTok;
    hide IsReserved;
    hide SplitAssignment;
    SubstTexts();
    PrintTokens.WordIsTok(CommandSubst([]), false);
    PrintTokens.LexWordTok("$()", " ;;");
    RoundTrip.NameIsAName(CommandSubst([]), false);
    PrintTokens.LexBehindBlank(";;");
    SemiSemi();
    assert "$()" + " ;;" == "$() ;;" && " " + ";;" == " ;;";
  }

  /** A syntax error that comes after a complete substitution does not leave the queue alone: in
      `$() ;;` everything that was waiting is gone by then. */
  lemma ErrorAfterASubstitution(items: seq<QueueItem>)
    ensures Parse("$() ;;", Free(items)) == Bad(Syntax(UnexpectedToken(TSemiSemi)), Free([]))
    ensures Disturbs("$() ;;")
  {
    var s := "$() ;;";
    ErrorAfterOne(items);
    ErrorAfterOne([Mark(|s|)]);
  }

  lemma ErrorAfterOne(items: seq<QueueItem>)
    ensures Parse("$() ;;", Free(items)) == Bad(Syntax(UnexpectedToken(TSemiSemi)), Free([]))
  {
    hide Lex;
    hide WordOf;
    hide IsReserved;
    hide SplitAssignment;
    hide SimpleLoop;
    var p0, p1 := PS("$() ;;", [], Free(items)), PS(" ;;", [], Free([]));
    SemiTokens();
    SubstitutionDrains(items);
    assert "$() ;;"[3..] == " ;;";
    WordTokenRound(p0, "$()", CommandSubst([]), Free([]), " ;;", EmptySimple);
    UnexpectedEnds(p1, TSemiSemi, EmptySimple.(name := Some(CommandSubst([]))));
    var e := Syntax(UnexpectedToken(TSemiSemi));
    assert SkipNewlines(p0) == Good((), p0);
    FirstCommandFails(p0, e);
  }

  lemma UnexpectedEnds(ps: PS, k: TokenKind, sc: SimpleCommand)
    requires Peek(ps) == Good(k, ps) && k == TSemiSemi
    ensures SimpleLoop(ps, sc) == Bad(Syntax(UnexpectedToken(k)), ps.cell)
  {
    hide Lex;
  }

  lemma FirstCommandFails(ps: PS, e: Why)
    requires SkipNewlines(ps) == Good((), ps) && Peek(ps).Good? && Peek(ps).value.TWord? && !IsReserved(Peek(ps).value.text)
    requires SimpleLoop(ps, EmptySimple) == Bad(e, Free([])) && ps.cell.Free? && ps.pend == []
    ensures Parse(ps.rest, ps.cell) == Bad(e, Free([]))
  {
    hide Lex;
    hide SimpleLoop;
    hide IsReserved;
    hide SkipNewlines;
    assert ParseCommand(ps) == Bad(e, Free([]));
    assert ParsePipelineCmd(ps) == Bad(e, Free([]));
    assert ParseListItem(ps) == Bad(e, Free([]));
    assert ScriptLoop(ps) == Bad(e, Free([]));
    assert ParseScript(ps) == Bad(e, Free([]));
    assert PS(ps.rest, [], ps.cell) == ps;
  }

  /** A syntax error behind a heredoc leaves its body in the queue, where the next parse finds it. */
  lemma ErrorLeavesBodies(name: string, ds: seq<Doc>)
    requires WfWord(Literal(name), false) && WfDocs(ds) && ds != []
    ensures Parse(CommandText(name, ds) + ";;", Free([])) == Bad(Syntax(UnexpectedToken(TSemiSemi)), Free(Items(ds)))
  {
    hide Lex;
    hide WfDocs;
    hide ParseScript;
    hide ScriptLoop;
    SemiSemi();
    CommandThen(name, ds, ";;");
    SemiSemiFails(PS(";;", [], Free(Items(ds))));
  }

  lemma SemiSemi()
    ensures Lex(";;", false) == Tok(TSemiSemi, 0, 2)
  {
    hide Lex;
    PrintTokens.LexStart(";;");
  }

  lemma SemiSemiFails(ps: PS)
    requires ps.rest == ";;"
    ensures !HeadIs(ps.rest, TNewline) && ScriptLoop(ps) == Bad(Syntax(UnexpectedToken(TSemiSemi)), ps.cell)
  {
    hide Lex;
    hide IsReserved;
    hide SimpleLoop;
    SemiSemi();
    var e := Syntax(UnexpectedToken(TSemiSemi));
    UnexpectedEnds(ps, TSemiSemi, EmptySimple);
    assert ParseCommand(ps) == Bad(e, ps.cell);
    assert ParsePipelineCmd(ps) == Bad(e, ps.cell);
    assert ParseListItem(ps) == Bad(e, ps.cell);
  }
}
