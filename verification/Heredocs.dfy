/** Heredocs: their bodies are collected verbatim, line by line, and handed to the redirections in
    order. */
module Heredocs {
  import opened Ast
  import opened LexSpec
  import opened ParseSpec
  import opened Print
  import PrintLex
  import Scanners
  import opened WordEffects
  import opened Borrowing

  // ---------------------------------------------------------------- collecting one body

  predicate IsLine(l: string) {
    '\n' !in l
  }

  /** Whole lines, each with its newline. */
  function Verbatim(lines: seq<string>): string {
    if lines == [] then "" else lines[0] + "\n" + Verbatim(lines[1..])
  }

  /** One heredoc as it stands in a text: its lines, none of which ends it, and the line that does. */
  datatype Doc = Doc(p: Pending, lines: seq<string>, last: string)

  predicate WfDoc(d: Doc) {
    && (forall l :: l in d.lines ==> IsLine(l) && !IsDelimiterLine(l, d.p))
    && IsLine(d.last) && IsDelimiterLine(d.last, d.p)
  }

  function DocText(d: Doc): string {
    Verbatim(d.lines) + (d.last + "\n")
  }

  lemma FirstLine(l: string, rest: string)
    requires IsLine(l)
    ensures var s := l + ("\n" + rest);
            Before(s, '\n') == |l| < |s| && s[..|l|] == l && s[..|l| + 1] == l + "\n" && s[|l| + 1..] == rest
  {
    PrintLex.BeforeOf(l, '\n', "\n" + rest);
  }

  /** The body is every line up to the first that ends it, and the text behind that line is left. */
  lemma {:induction false} OneBodyCollects(d: Doc, rest: string)
    requires WfDoc(d)
    ensures OneBody(DocText(d) + rest, d.p) == Bodies([Verbatim(d.lines)], |DocText(d)|)
    decreases |d.lines|
  {
    hide Before;
    hide IsDelimiterLine;
    var s := DocText(d) + rest;
    if d.lines == [] {
      assert s == d.last + ("\n" + rest);
      FirstLine(d.last, rest);
    } else {
      var l, e := d.lines[0], d.(lines := d.lines[1..]);
      var more := DocText(e) + rest;
      assert s == l + ("\n" + more);
      FirstLine(l, more);
      assert l in d.lines;
      OneBodyCollects(e, rest);
      assert |more| > 0;
      assert Verbatim(d.lines) == l + "\n" + Verbatim(e.lines);
    }
  }

  /** The lines the lexer looks at: an empty line behind a final newline is not one of them. */
  function Lines(s: string): (r: seq<string>)
    ensures r != []
    decreases |s|
  {
    var n := Before(s, '\n');
    if n + 1 >= |s| then [s[..n]] else [s[..n]] + Lines(s[n + 1..])
  }

  /** A body is found exactly when some line ends it. */
  lemma {:induction false} BodyNeedsItsDelimiter(s: string, p: Pending)
    ensures OneBody(s, p).Bodies? <==> exists l :: l in Lines(s) && IsDelimiterLine(l, p)
    decreases |s|
  {
    hide Before;
    hide IsDelimiterLine;
    var n := Before(s, '\n');
    assert Lines(s)[0] == s[..n];
    if n + 1 < |s| {
      BodyNeedsItsDelimiter(s[n + 1..], p);
    }
  }

  /** Whatever is collected is verbatim: the body is whole lines none of which ends it, and the text
      that was taken is those lines and the line that does; at the end of the text its newline may
      be missing. */
  lemma {:induction false} BodyIsVerbatim(s: string, p: Pending) returns (d: Doc)
    requires OneBody(s, p).Bodies?
    ensures WfDoc(d) && d.p == p && OneBody(s, p).bodies == [Verbatim(d.lines)]
    ensures Takes(s, OneBody(s, p).len, d)
    decreases |s|
  {
    hide Before;
    hide IsDelimiterLine;
    hide Takes;
    hide Verbatim;
    var n := Before(s, '\n');
    var line := s[..n];
    if IsDelimiterLine(line, p) {
      d := Doc(p, [], line);
      LastLineTaken(s, p);
      assert Verbatim([]) == "" by { NoLines(); }
    } else {
      assert n < |s|;
      var e := BodyIsVerbatim(s[n + 1..], p);
      d := Doc(p, [line] + e.lines, e.last);
      VerbatimCons(line, e.lines);
      LineTaken(s, n, OneBody(s[n + 1..], p).len, e);
      assert s[..n + 1] == line + "\n";
    }
  }

  /** The first `len` characters are the text of `d`, but perhaps for a newline at the very end. */
  predicate Takes(s: string, len: nat, d: Doc) {
    len <= |s| && (s[..len] == DocText(d) || (len == |s| && s + "\n" == DocText(d)))
  }

  lemma NoLines()
    ensures Verbatim([]) == ""
  {
  }

  lemma LoneLine(p: Pending, line: string)
    ensures DocText(Doc(p, [], line)) == line + "\n"
  {
    assert Verbatim([]) == "" && "" + (line + "\n") == line + "\n";
  }

  lemma LastLineTaken(s: string, p: Pending)
    ensures var n := Before(s, '\n'); Takes(s, if n < |s| then n + 1 else n, Doc(p, [], s[..n]))
  {
    hide DocText;
    hide Before;
    var n := Before(s, '\n');
    LoneLine(p, s[..n]);
    if n < |s| { assert s[..n + 1] == s[..n] + "\n"; } else { assert s == s[..n]; }
  }

  lemma LineTaken(s: string, n: nat, len: nat, e: Doc)
    requires n < |s| && s[n] == '\n' && Takes(s[n + 1..], len, e)
    ensures Takes(s, n + 1 + len, e.(lines := [s[..n]] + e.lines))
  {
    hide Verbatim;
    var line, rest := s[..n], s[n + 1..];
    VerbatimCons(line, e.lines);
    assert s == line + "\n" + rest;
    assert s[..n + 1 + len] == line + "\n" + rest[..len];
    assert line + "\n" + (Verbatim(e.lines) + (e.last + "\n")) == line + "\n" + Verbatim(e.lines) + (e.last + "\n");
    if len == |rest| { assert s + "\n" == line + "\n" + (rest + "\n"); }
  }

  lemma VerbatimCons(line: string, lines: seq<string>)
    ensures Verbatim([line] + lines) == line + "\n" + Verbatim(lines)
  {
    assert ([line] + lines)[1..] == lines;
  }

  function Tabs(n: nat): string {
    if n == 0 then "" else "\t" + Tabs(n - 1)
  }

  /** Which line ends a body: the delimiter, and after `<<-` the delimiter behind any number of tabs. */
  lemma {:induction false} EndingLines(p: Pending, n: nat, t: string)
    requires t == "" || t[0] != '\t'
    ensures p.stripTabs ==> (IsDelimiterLine(Tabs(n) + t, p) <==> t == p.delimiter)
    ensures !p.stripTabs ==> (IsDelimiterLine(Tabs(n) + t, p) <==> Tabs(n) + t == p.delimiter)
  {
    TabsStrip(n, t);
  }

  lemma {:induction false} TabsStrip(n: nat, t: string)
    requires t == "" || t[0] != '\t'
    ensures StripTabs(Tabs(n) + t) == t
  {
    if n == 0 {
      assert Tabs(0) + t == t;
    } else {
      assert (Tabs(n) + t)[0] == '\t' && (Tabs(n) + t)[1..] == Tabs(n - 1) + t;
      TabsStrip(n - 1, t);
    }
  }

  // ---------------------------------------------------------------- collecting all of them

  function DocsText(ds: seq<Doc>): string {
    if ds == [] then "" else DocText(ds[0]) + DocsText(ds[1..])
  }

  function PendingOf(ds: seq<Doc>): (r: seq<Pending>)
    ensures |r| == |ds|
    ensures forall i :: 0 <= i < |ds| ==> r[i] == ds[i].p
  {
    if ds == [] then [] else [ds[0].p] + PendingOf(ds[1..])
  }

  function BodyTexts(ds: seq<Doc>): (r: seq<string>)
    ensures |r| == |ds|
    ensures forall i :: 0 <= i < |ds| ==> r[i] == Verbatim(ds[i].lines)
  {
    if ds == [] then [] else [Verbatim(ds[0].lines)] + BodyTexts(ds[1..])
  }

  /** Any number of pending heredocs: their bodies in order, and the text behind the last one. */
  lemma {:induction false} AllBodiesCollect(ds: seq<Doc>, rest: string)
    requires forall d :: d in ds ==> WfDoc(d)
    ensures AllBodies(DocsText(ds) + rest, PendingOf(ds)) == Bodies(BodyTexts(ds), |DocsText(ds)|)
  {
    hide OneBody;
    hide WfDoc;
    if ds != [] {
      var s, more := DocsText(ds) + rest, DocsText(ds[1..]) + rest;
      PrintLex.Assoc(DocText(ds[0]), DocsText(ds[1..]), rest);
      OneBodyCollects(ds[0], more);
      PrintLex.DropHead(DocText(ds[0]), more);
      AllBodiesCollect(ds[1..], rest);
      assert PendingOf(ds)[1..] == PendingOf(ds[1..]);
    }
  }

  // ---------------------------------------------------------------- who gets which body

  /** The bodies of a script's heredocs, in the order of the redirections. */
  function BodiesInScript(cmds: seq<Command>): seq<HeredocBody>
    decreases cmds
  {
    if cmds == [] then [] else BodiesInCommand(cmds[0]) + BodiesInScript(cmds[1..])
  }

  function BodiesInCommand(c: Command): seq<HeredocBody>
    decreases c
  {
    match c
    case Simple(sc) => BodiesInRedirects(sc.redirects)
    case Pipe(p) => BodiesInStages(p.commands)
    case And(l, r) => BodiesInCommand(l) + BodiesInCommand(r)
    case Or(l, r) => BodiesInCommand(l) + BodiesInCommand(r)
    case Sequence(cs) => BodiesInScript(cs)
    case Background(b) => BodiesInCommand(b)
    case Subshell(cs) => BodiesInScript(cs)
    case Group(cs) => BodiesInScript(cs)
  }

  function BodiesInStages(scs: seq<SimpleCommand>): seq<HeredocBody>
    decreases scs
  {
    if scs == [] then [] else BodiesInRedirects(scs[0].redirects) + BodiesInStages(scs[1..])
  }

  function BodiesInRedirects(rs: seq<Redirect>): seq<HeredocBody>
    decreases rs
  {
    if rs == [] then []
    else (if rs[0].target.ToHeredoc? then [rs[0].target.hd.body] else []) + BodiesInRedirects(rs[1..])
  }

  /** The script with every heredoc body blanked. */
  function Blank(cmds: seq<Command>): seq<Command>
    decreases cmds
  {
    if cmds == [] then [] else [BlankCommand(cmds[0])] + Blank(cmds[1..])
  }

  function BlankCommand(c: Command): Command
    decreases c
  {
    match c
    case Simple(sc) => Simple(BlankSimple(sc))
    case Pipe(p) => Pipe(Pipeline(BlankStages(p.commands), p.negated))
    case And(l, r) => And(BlankCommand(l), BlankCommand(r))
    case Or(l, r) => Or(BlankCommand(l), BlankCommand(r))
    case Sequence(cs) => Sequence(Blank(cs))
    case Background(b) => Background(BlankCommand(b))
    case Subshell(cs) => Subshell(Blank(cs))
    case Group(cs) => Group(Blank(cs))
  }

  function BlankStages(scs: seq<SimpleCommand>): seq<SimpleCommand>
    decreases scs
  {
    if scs == [] then [] else [BlankSimple(scs[0])] + BlankStages(scs[1..])
  }

  function BlankSimple(sc: SimpleCommand): SimpleCommand {
    sc.(redirects := BlankRedirects(sc.redirects))
  }

  function BlankRedirects(rs: seq<Redirect>): seq<Redirect>
    decreases rs
  {
    if rs == [] then [] else [BlankRedirect(rs[0])] + BlankRedirects(rs[1..])
  }

  function BlankRedirect(r: Redirect): Redirect {
    if r.target.ToHeredoc? then r.(target := ToHeredoc(r.target.hd.(body := LiteralBody("")))) else r
  }

  /** None of the first n bodies aborts. */
  predicate Decode(items: seq<QueueItem>, n: nat) {
    forall k :: 0 <= k < n && k < |items| ==> BodyOf(items[k]).Good?
  }

  function Left(items: seq<QueueItem>, n: nat): seq<QueueItem> {
    if n <= |items| then items[n..] else []
  }

  /** Bodies replaced one by one for as long as there are items. */
  function Refilled(old_: seq<HeredocBody>, items: seq<QueueItem>): (r: seq<HeredocBody>)
    requires Decode(items, |old_|)
    ensures |r| == |old_|
    ensures forall k :: 0 <= k < |r| ==> r[k] == if k < |items| then BodyOf(items[k]).value else old_[k]
  {
    seq(|old_|, k requires 0 <= k < |old_| => if k < |items| then BodyOf(items[k]).value else old_[k])
  }

  /** The k-th heredoc holds the k-th body, and the rest of the queue is left. */
  predicate Handed(before: seq<HeredocBody>, items: seq<QueueItem>, now: seq<HeredocBody>, left: seq<QueueItem>) {
    Decode(items, |before|) && left == Left(items, |before|) && now == Refilled(before, items)
  }

  lemma OnlyAborts(item: QueueItem)
    ensures BodyOf(item).Bad? ==> BodyOf(item).why == Aborted
  {
    hide DqWordParts;
  }

  lemma DecodeConcat(items: seq<QueueItem>, m: nat, n: nat)
    ensures Decode(items, m + n) <==> Decode(items, m) && Decode(Left(items, m), n)
    ensures Left(Left(items, m), n) == Left(items, m + n)
  {
    hide BodyOf;
    if Decode(items, m) && Decode(Left(items, m), n) {
      forall k | 0 <= k < m + n && k < |items| ensures BodyOf(items[k]).Good? {
        if k >= m { assert Left(items, m)[k - m] == items[k]; }
      }
    }
  }

  lemma RefilledConcat(a: seq<HeredocBody>, b: seq<HeredocBody>, items: seq<QueueItem>)
    requires Decode(items, |a| + |b|)
    ensures Decode(items, |a|) && Decode(Left(items, |a|), |b|)
    ensures Refilled(a + b, items) == Refilled(a, items) + Refilled(b, Left(items, |a|))
  {
    hide BodyOf;
    DecodeConcat(items, |a|, |b|);
  }

  function BodiesInRedirect(r: Redirect): seq<HeredocBody> {
    if r.target.ToHeredoc? then [r.target.hd.body] else []
  }

  lemma RedirectsCons(r: Redirect, more: seq<Redirect>)
    ensures BodiesInRedirects([r] + more) == BodiesInRedirect(r) + BodiesInRedirects(more)
    ensures BlankRedirects([r] + more) == [BlankRedirect(r)] + BlankRedirects(more)
  {
    assert ([r] + more)[1..] == more;
  }

  lemma {:induction false} FillRedirectsLaw(rs: seq<Redirect>, items: seq<QueueItem>)
    ensures var r := FillRedirects(rs, items);
            if r.Good? then Handed(BodiesInRedirects(rs), items, BodiesInRedirects(r.value), r.st) && BlankRedirects(r.value) == BlankRedirects(rs)
            else r.why == Aborted && !Decode(items, |BodiesInRedirects(rs)|)
    decreases rs
  {
    hide Refilled;
    hide BodyOf;
    hide BodiesInRedirects;
    hide BlankRedirects;
    if rs == [] {
      NoRedirects(items);
    } else {
      var r, rest := rs[0], rs[1..];
      assert rs == [r] + rest;
      RedirectsCons(r, rest);
      if r.target.ToHeredoc? && items != [] {
        FillRedirectsLaw(rest, items[1..]);
        assert Left(items, 1) == items[1..];
        DecodeConcat(items, 1, |BodiesInRedirects(rest)|);
        OnlyAborts(items[0]);
        if BodyOf(items[0]).Good? {
          var filled := r.(target := ToHeredoc(r.target.hd.(body := BodyOf(items[0]).value)));
          var more := FillRedirects(rest, items[1..]);
          if more.Good? {
            RedirectsCons(filled, more.value);
            RefilledConcat([r.target.hd.body], BodiesInRedirects(rest), items);
            assert Refilled([r.target.hd.body], items) == [BodyOf(items[0]).value];
          }
        }
      } else {
        FillRedirectsLaw(rest, items);
        var more := FillRedirects(rest, items);
        if more.Good? {
          RedirectsCons(r, more.value);
          if r.target.ToHeredoc? {
            assert Refilled(BodiesInRedirects(rs), items) == BodiesInRedirects(rs);
            assert Refilled(BodiesInRedirects(rest), items) == BodiesInRedirects(rest);
          }
        }
      }
    }
  }

  lemma NoRedirects(items: seq<QueueItem>)
    ensures BodiesInRedirects([]) == []
    ensures Left(items, 0) == items
    ensures Refilled([], items) == []
  {
  }

  lemma {:induction false} FillStagesLaw(scs: seq<SimpleCommand>, items: seq<QueueItem>)
    ensures var r := FillStages(scs, items);
            if r.Good? then Handed(BodiesInStages(scs), items, BodiesInStages(r.value), r.st) && BlankStages(r.value) == BlankStages(scs)
            else r.why == Aborted && !Decode(items, |BodiesInStages(scs)|)
    decreases scs
  {
    hide Refilled;
    hide BodiesInRedirects;
    hide BlankRedirects;
    hide BodyOf;
    hide FillRedirects;
    NoRedirects(items);
    if scs != [] {
      var first, rest := BodiesInRedirects(scs[0].redirects), BodiesInStages(scs[1..]);
      FillRedirectsLaw(scs[0].redirects, items);
      FillStagesLaw(scs[1..], Left(items, |first|));
      Both(first, rest, items);
      var fs := FillStages(scs, items);
      if fs.Good? { assert fs.value == [fs.value[0]] + fs.value[1..]; }
    }
  }

  /** Filling one thing and then another. */
  lemma Both(a: seq<HeredocBody>, b: seq<HeredocBody>, items: seq<QueueItem>)
    ensures Decode(items, |a| + |b|) <==> Decode(items, |a|) && Decode(Left(items, |a|), |b|)
    ensures Left(Left(items, |a|), |b|) == Left(items, |a| + |b|)
    ensures Decode(items, |a| + |b|) ==> Refilled(a + b, items) == Refilled(a, items) + Refilled(b, Left(items, |a|))
  {
    hide BodyOf;
    DecodeConcat(items, |a|, |b|);
    if Decode(items, |a| + |b|) { RefilledConcat(a, b, items); }
  }

  lemma {:induction false} FillScriptLaw(cmds: seq<Command>, items: seq<QueueItem>)
    ensures var r := FillScript(cmds, items);
            if r.Good? then Handed(BodiesInScript(cmds), items, BodiesInScript(r.value), r.st) && Blank(r.value) == Blank(cmds)
            else r.why == Aborted && !Decode(items, |BodiesInScript(cmds)|)
    decreases cmds
  {
    hide Refilled;
    hide BodyOf;
    hide FillCommand;
    hide BodiesInCommand;
    hide BlankCommand;
    NoRedirects(items);
    if cmds != [] {
      var first, rest := BodiesInCommand(cmds[0]), BodiesInScript(cmds[1..]);
      FillCommandLaw(cmds[0], items);
      FillScriptLaw(cmds[1..], Left(items, |first|));
      Both(first, rest, items);
      var fs := FillScript(cmds, items);
      if fs.Good? { assert fs.value == [fs.value[0]] + fs.value[1..]; }
    }
  }

  /** One filling behind another, however they end. */
  lemma HandedBoth(a: seq<HeredocBody>, b: seq<HeredocBody>, items: seq<QueueItem>)
    ensures forall now1, left1, now2, left2 ::
              Handed(a, items, now1, left1) && Handed(b, left1, now2, left2) ==> Handed(a + b, items, now1 + now2, left2)
    ensures !Decode(items, |a|) ==> !Decode(items, |a + b|)
    ensures forall now1, left1 :: Handed(a, items, now1, left1) && !Decode(left1, |b|) ==> !Decode(items, |a + b|)
  {
    hide BodyOf;
    Both(a, b, items);
  }

  predicate CommandFilled(c: Command, items: seq<QueueItem>) {
    var r := FillCommand(c, items);
    if r.Good? then Handed(BodiesInCommand(c), items, BodiesInCommand(r.value), r.st) && BlankCommand(r.value) == BlankCommand(c)
    else r.why == Aborted && !Decode(items, |BodiesInCommand(c)|)
  }

  lemma {:induction false} FillPairLaw(l: Command, r: Command, items: seq<QueueItem>)
    requires CommandFilled(l, items)
    requires FillCommand(l, items).Good? ==> CommandFilled(r, FillCommand(l, items).st)
    ensures CommandFilled(And(l, r), items) && CommandFilled(Or(l, r), items)
  {
    hide Handed;
    hide Decode;
    HandedBoth(BodiesInCommand(l), BodiesInCommand(r), items);
  }

  lemma {:induction false} FillCommandLaw(c: Command, items: seq<QueueItem>)
    ensures var r := FillCommand(c, items);
            if r.Good? then Handed(BodiesInCommand(c), items, BodiesInCommand(r.value), r.st) && BlankCommand(r.value) == BlankCommand(c)
            else r.why == Aborted && !Decode(items, |BodiesInCommand(c)|)
    decreases c
  {
    hide Handed;
    hide Decode;
    hide FillScript;
    hide FillStages;
    hide FillRedirects;
    hide BodiesInScript;
    hide BodiesInStages;
    hide BodiesInRedirects;
    hide Blank;
    hide BlankStages;
    hide BlankRedirects;
    match c
    case Simple(sc) => FillRedirectsLaw(sc.redirects, items);
    case Pipe(p) => FillStagesLaw(p.commands, items);
    case And(l, r) =>
      FillCommandLaw(l, items);
      if FillCommand(l, items).Good? { FillCommandLaw(r, FillCommand(l, items).st); }
      FillPairLaw(l, r, items);
    case Or(l, r) =>
      FillCommandLaw(l, items);
      if FillCommand(l, items).Good? { FillCommandLaw(r, FillCommand(l, items).st); }
      FillPairLaw(l, r, items);
    case Sequence(cs) => FillScriptLaw(cs, items);
    case Background(b) => FillCommandLaw(b, items);
    case Subshell(cs) => FillScriptLaw(cs, items);
    case Group(cs) => FillScriptLaw(cs, items);
  }

  // ---------------------------------------------------------------- unquoted bodies

  /** Text without `$` or backticks is literal. */
  lemma {:induction false} PlainTextParts(s: string, lit: string, rest: string, cell: Cell)
    requires '$' !in s && '`' !in s
    ensures DqWordParts(s + rest, lit, cell) == DqWordParts(rest, lit + s, cell)
    decreases |s|
  {
    hide ParseDollar;
    hide ParseBacktick;
    if s == "" {
      assert s + rest == rest && lit + s == lit;
    } else {
      assert (s + rest)[1..] == s[1..] + rest;
      PlainTextParts(s[1..], lit + [s[0]], rest, cell);
      assert lit + [s[0]] + s[1..] == lit + s;
    }
  }

  /** A body without `$` or backticks stands for itself, quoted or not. */
  lemma PlainBody(item: QueueItem)
    requires '$' !in item.body && '`' !in item.body
    ensures BodyOf(item) ==
            Good(if item.quoted then LiteralBody(item.body) else PartsBody(PendingDq(item.body)), ())
  {
    PlainTextParts(item.body, "", "", Borrowed);
    assert item.body + "" == item.body && "" + item.body == item.body;
  }

  /** A delimiter is not begun by what follows a text, if that starts with a `$`. */
  lemma StartExtends(s: string, close: string, r: string)
    requires (close == ")" || close == "))") && s != "" && (r == "" || r[0] == '$')
    ensures StartsWith(s + r, close) <==> StartsWith(s, close)
  {
    if |s| > 1 { assert (s + r)[..2] == s[..2]; } else if |s + r| > 1 { assert (s + r)[1] == '$'; }
  }

  function NextDepth(c: char, depth: nat): nat
    requires c == ')' ==> depth > 0
  {
    if c == '(' then depth + 1 else if c == ')' then depth - 1 else depth
  }

  lemma ExtractOne(s: string, depth: nat, close: string)
    requires (close == ")" || close == "))") && s != ""
    ensures Extract(s, depth, close) ==
            if depth == 1 && StartsWith(s, close) then Some((0, |close|))
            else if s[0] == ')' && depth <= 1 then Some((0, 1))
            else Further(1, Extract(s[1..], NextDepth(s[0], depth), close))
  {
    hide StartsWith;
  }

  lemma {:induction false} ExtractExtends(s: string, depth: nat, close: string, r: string)
    requires (close == ")" || close == "))") && Extract(s, depth, close).Some?
    requires r == "" || r[0] == '$'
    ensures Extract(s + r, depth, close) == Extract(s, depth, close)
    decreases |s|
  {
    hide StartsWith;
    hide Extract;
    assert s != "" by { NothingExtracted(depth, close); }
    assert (s + r)[1..] == s[1..] + r && (s + r)[0] == s[0];
    StartExtends(s, close, r);
    ExtractOne(s, depth, close);
    ExtractOne(s + r, depth, close);
    if !(depth == 1 && StartsWith(s, close)) && !(s[0] == ')' && depth <= 1) {
      ExtractExtends(s[1..], NextDepth(s[0], depth), close, r);
    }
  }

  lemma NothingExtracted(depth: nat, close: string)
    requires close == ")" || close == "))"
    ensures Extract("", depth, close).None?
  {
  }

  lemma {:induction false} BeforeExtends(s: string, c: char, r: string)
    requires Before(s, c) < |s|
    ensures Before(s + r, c) == Before(s, c)
  {
    assert (s + r)[1..] == s[1..] + r;
    if s[0] != c { BeforeExtends(s[1..], c, r); }
  }

  lemma {:induction false} NameExtends(s: string, r: string)
    requires r == "" || r[0] == '$'
    ensures NameRun(s + r) == NameRun(s)
  {
    if s == "" {
      assert s + r == r;
    } else {
      assert (s + r)[1..] == s[1..] + r;
      NameExtends(s[1..], r);
    }
  }

  /** With the queue borrowed a command substitution is no expansion. */
  lemma WholeArithmetic(s: string)
    requires |s| > 1 && s[0] == '$' && s[1] == '(' && ParseDollar(s, Borrowed).Good?
    ensures Parenthesis(s, 2)
  {
    hide Parse;
    hide Extract;
    hide Trim;
  }

  lemma ArithmeticDollar(s: string, cell: Cell)
    requires |s| > 2 && s[0] == '$' && s[1] == '(' && s[2] == '('
    ensures ParseDollar(s, cell) ==
            var x := Extract(s[3..], 1, "))");
            if x.Some? then Good(Expansion(ArithSubst(s[3..][..x.value.0]), 3 + x.value.1), cell)
            else Bad(Syntax(UnmatchedClose("))")), cell)
  {
    hide Parse;
    hide Extract;
    hide Trim;
    hide NameRun;
    hide ParseBraceVar;
  }

  lemma ArithmeticExtends(s: string, r: string)
    requires |s| > 2 && s[0] == '$' && s[1] == '(' && s[2] == '(' && (r == "" || r[0] == '$')
    requires ParseDollar(s, Borrowed).Good?
    ensures ParseDollar(s + r, Borrowed) == ParseDollar(s, Borrowed)
  {
    hide ParseDollar;
    hide Extract;
    var t := s + r;
    assert t[0] == s[0] && t[1] == s[1] && t[2] == s[2];
    assert t[3..] == s[3..] + r;
    ArithmeticDollar(s, Borrowed);
    ArithmeticDollar(t, Borrowed);
    ExtractExtends(s[3..], 1, "))", r);
    var n := Extract(s[3..], 1, "))").value.0;
    assert t[3..][..n] == s[3..][..n];
  }

  lemma BraceDollar(s: string, cell: Cell)
    requires |s| > 1 && s[0] == '$' && s[1] == '{'
    ensures ParseDollar(s, cell) ==
            var d := ParseBraceVar(s[2..], cell);
            if d.Good? then Good(Expansion(Variable(d.value.0), 2 + d.value.1 + 1), d.st) else Bad(d.why, d.queue)
  {
    hide Parse;
    hide Extract;
    hide NameRun;
    hide ParseBraceVar;
  }

  lemma NameDollarExtends(s: string, r: string)
    requires |s| > 1 && s[0] == '$' && s[1] != '(' && s[1] != '{' && (r == "" || r[0] == '$')
    ensures ParseDollar(s + r, Borrowed) == ParseDollar(s, Borrowed)
  {
    hide Parse;
    hide Extract;
    hide NameRun;
    hide ParseBraceVar;
    hide Trim;
    var t := s + r;
    assert t[1..] == s[1..] + r;
    NameExtends(s[1..], r);
    var n := NameRun(s[1..]);
    assert t[1..][..n] == s[1..][..n];
  }

  /** An expansion that is whole stays the same in front of a `$`. */
  lemma DollarExtends(s: string, r: string)
    requires |s| > 1 && s[0] == '$' && (r == "" || r[0] == '$')
    requires ParseDollar(s, Borrowed).Good?
    ensures ParseDollar(s + r, Borrowed) == ParseDollar(s, Borrowed)
  {
    hide ParseDollar;
    hide ParseBraceVar;
    var t := s + r;
    assert t[0] == s[0] && t[1] == s[1] && |t| > 1;
    if s[1] == '(' {
      WholeArithmetic(s);
      ArithmeticExtends(s, r);
    } else if s[1] == '{' {
      assert t[2..] == s[2..] + r;
      BraceDollar(s, Borrowed);
      BraceDollar(t, Borrowed);
      BraceExtends(s[2..], r);
    } else {
      NameDollarExtends(s, r);
    }
  }

  lemma BraceExtends(s: string, r: string)
    requires ParseBraceVar(s, Borrowed).Good?
    ensures ParseBraceVar(s + r, Borrowed) == ParseBraceVar(s, Borrowed)
  {
    hide WordOf;
    hide FindVarOperator;
    hide Before;
    BeforeExtends(s, '}', r);
    assert (s + r)[..Before(s, '}')] == s[..Before(s, '}')];
  }

  /** What splits on its own, and does not end with a `$`, splits the same way in front of a `$`; so
      the expansion there is reached. */
  lemma {:induction false} ReachedBehind(before: string, lit: string, r: string)
    requires DqWordParts(before, lit, Borrowed).Good? && (before == "" || before[|before| - 1] != '$')
    requires r != "" && r[0] == '$' && ParseDollar(r, Borrowed).Bad?
    ensures DqWordParts(before + r, lit, Borrowed).Bad?
    ensures DqWordParts(before + r, lit, Borrowed).why == ParseDollar(r, Borrowed).why
    decreases |before|
  {
    hide ParseDollar;
    hide Parse;
    var s := before + r;
    if before == "" {
      assert s == r;
    } else if before[0] == '$' {
      DollarExtends(before, r);
      var d := ParseDollar(before, Borrowed);
      var rest := before[d.value.len..];
      assert s[d.value.len..] == rest + r;
      BorrowedStays(before);
      ReachedBehind(rest, "", r);
    } else if before[0] != '`' {
      assert s[1..] == before[1..] + r;
      ReachedBehind(before[1..], lit + [before[0]], r);
    }
  }

  lemma BorrowedStays(s: string)
    requires s != "" && ParseDollar(s, Borrowed).Good?
    ensures ParseDollar(s, Borrowed).st == Borrowed
  {
  }

  /** The first command substitution of an unquoted body, whatever variables and arithmetic stand in
      front: the parse aborts exactly when its script disturbs the queue, as every script that parses
      does. Otherwise the script has a syntax error that comes before anything happens, and the whole
      body is taken as it stands. */
  lemma SubstitutionInBody(before: string, b: string, rest: string)
    requires DqWordParts(before, "", Borrowed).Good? && (before == "" || before[|before| - 1] != '$')
    requires IsBalanced(b) && (b == "" || b[0] != '(')
    ensures var body := before + ("$" + ("(" + (b + (")" + rest))));
            BodyOf(QueueItem(false, body)) ==
            if Disturbs(Trim(b)) then Bad(Aborted, Borrowed) else Good(PartsBody([DQLiteral(body)]), ())
    ensures Parse(Trim(b), Free([])).Good? ==> Disturbs(Trim(b))
  {
    hide Parse;
    hide ParseDollar;
    hide Trim;
    hide Disturbs;
    hide DqWordParts;
    hide BodyOf;
    hide IsBalanced;
    var s := "$" + ("(" + (b + (")" + rest)));
    SubstitutionFails(b, rest);
    ReachedBehind(before, "", s);
    UnquotedBody(before + s);
    if Parse(Trim(b), Free([])).Good? { WhatParsesAborts(Trim(b), []); BorrowedParse(Trim(b)); }
  }

  /** With the queue borrowed a substitution is never read: it aborts, or its script has an error. */
  lemma SubstitutionFails(b: string, rest: string)
    requires IsBalanced(b) && (b == "" || b[0] != '(')
    ensures var r := ParseDollar("$" + ("(" + (b + (")" + rest))), Borrowed);
            r.Bad? && (r.why == Aborted <==> Disturbs(Trim(b)))
  {
    hide Parse;
    hide ParseDollar;
    hide Trim;
    hide Disturbs;
    hide IsBalanced;
    Scanners.SubstitutionExtent(b, rest, Borrowed);
    BorrowedParse(Trim(b));
  }

  lemma UnquotedBody(body: string)
    ensures var r := DqWordParts(body, "", Borrowed);
            BodyOf(QueueItem(false, body)) ==
            if r.Good? then Good(PartsBody(r.value), ())
            else if r.why == Aborted then Bad(Aborted, r.queue)
            else Good(PartsBody([DQLiteral(body)]), ())
  {
    hide DqWordParts;
  }

  /** For instance an empty one. */
  lemma EmptySubstitutionAborts()
    ensures BodyOf(QueueItem(false, "$()")) == Bad(Aborted, Borrowed)
  {
    hide BodyOf;
    hide Disturbs;
    SubstitutionInBody("", "", "");
    assert "" + ("$" + ("(" + ("" + (")" + "")))) == "$()";
    assert Trim("") == "";
    NothingParses(Borrowed);
    BorrowedParse("");
  }

  lemma NothingParses(cell: Cell)
    ensures ParseScript(PS("", [], cell)) == Good([], PS("", [], cell))
    ensures Parse("", Borrowed) == Bad(Aborted, Borrowed)
  {
    hide ParseListItem;
    assert Skipped("") == 0;
    assert SkipNewlines(PS("", [], cell)) == Good((), PS("", [], cell));
    assert ScriptLoop(PS("", [], cell)) == Good([], PS("", [], cell));
    assert SkipNewlines(PS("", [], Borrowed)) == Good((), PS("", [], Borrowed));
    assert ScriptLoop(PS("", [], Borrowed)) == Good([], PS("", [], Borrowed));
  }
}
