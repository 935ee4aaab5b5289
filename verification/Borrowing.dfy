/** Parsing while the heredoc queue is borrowed, as happens when bodies are filled in. Such a parse
    does what it would do with a free queue until the queue would be touched, and aborts there. */
module Borrowing {
  import opened Ast
  import opened LexSpec
  import opened ParseSpec
  import opened WordEffects

  // ---------------------------------------------------------------- two runs side by side

  function FreeAt(ps: PS, i: seq<QueueItem>): PS {
    ps.(cell := Free(i))
  }

  function Lent(ps: PS): PS {
    ps.(cell := Borrowed)
  }

  predicate IsAt(a: string, b: string, k: nat) {
    k + |a| <= |b| && b[k..k + |a|] == a
  }

  /** A piece of a text. */
  ghost predicate Part(a: string, b: string) {
    exists k: nat :: IsAt(a, b, k)
  }

  predicate IsBodyOf(item: QueueItem, s: string, p: Pending) {
    OneBody(s, p).Bodies? && item == QueueItem(p.quoted, OneBody(s, p).bodies[0])
  }

  /** A body collected for some heredoc from some place of a text. */
  ghost predicate Found(item: QueueItem, src: string) {
    exists s: string, p: Pending :: Part(s, src) && IsBodyOf(item, s, p)
  }

  ghost predicate AllFound(items: seq<QueueItem>, src: string) {
    forall k :: 0 <= k < |items| ==> Found(items[k], src)
  }

  /** Bodies were added to the queue, or it was emptied first. */
  ghost predicate Added(i: seq<QueueItem>, now: seq<QueueItem>, new_: seq<QueueItem>, src: string) {
    AllFound(new_, src) && (now == new_ || (new_ != [] && now == i + new_))
  }

  /** A queue that started as `i` and was emptied, or had bodies added that come from the text. */
  ghost predicate Touched(i: seq<QueueItem>, c: Cell, src: string) {
    c.Free? && exists new_ :: Added(i, c.items, new_, src)
  }

  lemma EmptiedIsTouched(i: seq<QueueItem>, src: string)
    ensures Touched(i, Free([]), src)
  {
    assert Added(i, [], [], src);
  }

  lemma AllFoundConcat(a: seq<QueueItem>, b: seq<QueueItem>, src: string)
    requires AllFound(a, src) && AllFound(b, src)
    ensures AllFound(a + b, src)
  {
    hide Found;
  }

  lemma PartTrans(a: string, b: string, c: string)
    requires Part(a, b) && Part(b, c)
    ensures Part(a, c)
  {
    var j: nat :| IsAt(a, b, j);
    var k: nat :| IsAt(b, c, k);
    forall x | 0 <= x < |a| ensures c[k + j + x] == a[x] {
      assert b[j..j + |a|][x] == b[j + x];
      assert c[k..k + |b|][j + x] == c[k + (j + x)];
    }
    assert c[k + j..k + j + |a|] == a;
    assert IsAt(a, c, k + j);
  }

  lemma WholeIsPart(s: string)
    ensures Part(s, s)
  {
    assert s[0..|s|] == s;
    assert IsAt(s, s, 0);
  }

  lemma DropPart(s: string, n: nat, src: string)
    requires n <= |s| && Part(s, src)
    ensures Part(s[n..], src)
  {
    assert IsAt(s[n..], s, n);
    PartTrans(s[n..], s, src);
  }

  lemma TakePart(s: string, n: nat, src: string)
    requires n <= |s| && Part(s, src)
    ensures Part(s[..n], src)
  {
    assert s[0..n] == s[..n];
    assert IsAt(s[..n], s, 0);
    PartTrans(s[..n], s, src);
  }

  lemma {:induction false} TrimStartPart(s: string, src: string)
    requires Part(s, src)
    ensures Part(TrimStart(s), src)
  {
    hide Part;
    if s != "" && IsSpace(s[0]) {
      DropPart(s, 1, src);
      TrimStartPart(s[1..], src);
    }
  }

  lemma {:induction false} TrimEndPart(s: string, src: string)
    requires Part(s, src)
    ensures Part(TrimEnd(s), src)
  {
    hide Part;
    if s != "" && IsSpace(s[|s| - 1]) {
      TakePart(s, |s| - 1, src);
      TrimEndPart(s[..|s| - 1], src);
    }
  }

  /** The inside of a substitution. */
  lemma InsidePart(s: string, m: nat, n: nat, src: string)
    requires Part(s, src) && m <= |s| && n <= |s[m..]|
    ensures Part(s[m..], src) && Part(s[m..][..n], src) && Part(Trim(s[m..][..n]), src)
  {
    hide Part;
    DropPart(s, m, src);
    TakePart(s[m..], n, src);
    TrimStartPart(s[m..][..n], src);
    TrimEndPart(TrimStart(s[m..][..n]), src);
  }

  lemma RedirectText(s: string, src: string)
    requires Part(s, src)
    ensures LexRedirect(s).Tok? && LexRedirect(s).kind.TWord? ==> Part(LexRedirect(s).kind.text, src)
    ensures LexWord(s).Tok? ==> Part(LexWord(s).kind.text, src)
  {
    hide Part;
    hide HeredocToken;
    if WordRun(s).Some? { TakePart(s, WordRun(s).value, src); }
    assert forall t, fd :: HeredocToken(t, fd).Tok? ==> HeredocToken(t, fd).kind.THereDoc? by { HeredocTokens(); }
  }

  lemma HeredocTokens()
    ensures forall t, fd :: HeredocToken(t, fd).Tok? ==> HeredocToken(t, fd).kind.THereDoc?
  {
    hide HeredocDelimiter;
  }

  /** The text of a word token is a piece of what was read. */
  lemma TokenText(s: string, dq: bool, src: string)
    requires Part(s, src)
    ensures Lex(s, dq).Tok? && Lex(s, dq).kind.TWord? ==> Part(Lex(s, dq).kind.text, src)
  {
    hide Part;
    hide LexRedirect;
    hide LexWord;
    hide Before;
    hide UnescapeDq;
    hide DqRun;
    RedirectText(s, src);
    DropPart(s, Skipped(s), src);
    RedirectText(s[Skipped(s)..], src);
  }

  /** A run with a free queue and one with a borrowed queue: the same, unless the queue is touched. */
  ghost predicate Agree<T(!new)>(i: seq<QueueItem>, r: Res<T, PS>, b: Res<T, PS>, src: string) {
    && (r.Good? ==> Part(r.st.rest, src))
    && match b
       case Good(v, st) => st.cell == Borrowed && r == Good(v, FreeAt(st, i))
       case Bad(Syntax(e), _) => r == Bad(Syntax(e), Free(i))
       case Bad(Aborted, c) => c == Borrowed && Touched(i, if r.Good? then r.st.cell else r.queue, src)
  }

  ghost predicate AgreeCell<T(!new)>(i: seq<QueueItem>, r: Res<T, Cell>, b: Res<T, Cell>, src: string) {
    match b
    case Good(v, c) => c == Borrowed && r == Good(v, Free(i))
    case Bad(Syntax(e), _) => r == Bad(Syntax(e), Free(i))
    case Bad(Aborted, c) => c == Borrowed && Touched(i, if r.Good? then r.st else r.queue, src)
  }

  /** Where the free run has got to: `t` says whether the queue has been touched. */
  ghost predicate Now(i: seq<QueueItem>, c: Cell, t: bool, src: string) {
    if t then Touched(i, c, src) else c == Free(i)
  }

  lemma TouchedTrans(i: seq<QueueItem>, j: seq<QueueItem>, c: Cell, src: string)
    requires Touched(i, Free(j), src) && Touched(j, c, src)
    ensures Touched(i, c, src)
  {
    hide AllFound;
    var x :| Added(i, j, x, src);
    var y :| Added(j, c.items, y, src);
    AllFoundConcat(x, y, src);
    if c.items == y {
      assert Added(i, c.items, y, src);
    } else {
      assert i + x + y == i + (x + y);
      assert Added(i, c.items, x + y, src);
    }
  }

  /** One more step of the two runs. */
  lemma Go<T(!new)>(i: seq<QueueItem>, j: seq<QueueItem>, t: bool, r: Res<T, PS>, b: Res<T, PS>, src: string) returns (t': bool)
    requires Now(i, Free(j), t, src) && Agree(j, r, b, src)
    ensures t' == (t || (b.Bad? && b.why == Aborted))
    ensures Now(i, if r.Good? then r.st.cell else r.queue, t', src)
    ensures (r.Good? ==> r.st.cell.Free? && Part(r.st.rest, src)) && (!t' ==> Agree(i, r, b, src))
  {
    hide Touched;
    hide Part;
    t' := t || (b.Bad? && b.why == Aborted);
    var c := if r.Good? then r.st.cell else r.queue;
    assert t' ==> c == Free(j) || Touched(j, c, src);
    if t && c != Free(j) { TouchedTrans(i, j, c, src); }
    if c != Free(j) { TouchedIsFree(j, c, src); }
  }

  lemma GoCell<T(!new)>(i: seq<QueueItem>, j: seq<QueueItem>, t: bool, r: Res<T, Cell>, b: Res<T, Cell>, src: string) returns (t': bool)
    requires Now(i, Free(j), t, src) && AgreeCell(j, r, b, src)
    ensures t' == (t || (b.Bad? && b.why == Aborted))
    ensures Now(i, if r.Good? then r.st else r.queue, t', src)
    ensures (r.Good? ==> r.st.Free?) && (!t' ==> AgreeCell(i, r, b, src))
  {
    hide Touched;
    t' := t || (b.Bad? && b.why == Aborted);
    var c := if r.Good? then r.st else r.queue;
    if t && c != Free(j) { TouchedTrans(i, j, c, src); }
    if c != Free(j) { TouchedIsFree(j, c, src); }
  }

  lemma TouchedIsFree(i: seq<QueueItem>, c: Cell, src: string)
    requires Touched(i, c, src)
    ensures c.Free?
  {
  }

  // ---------------------------------------------------------------- words

  lemma {:induction false} DollarAgree(s: string, i: seq<QueueItem>, src: string)
    requires s != "" && Part(s, src)
    ensures AgreeCell(i, ParseDollar(s, Free(i)), ParseDollar(s, Borrowed), src)
    decreases |s|, 3
  {
    hide Parse;
    hide Extract;
    hide Trim;
    hide NameRun;
    hide ParseBraceVar;
    hide Touched;
    hide Part;
    if |s| > 1 && s[1] == '{' {
      DropPart(s, 2, src);
      BraceAgree(s[2..], i, src);
    } else if |s| > 1 && s[1] == '(' && !Parenthesis(s, 2) {
      match Extract(s[2..], 1, ")")
      case None =>
      case Some((k, used)) =>
        InsidePart(s, 2, k, src);
        ParseAgree(Trim(s[2..][..k]), i, src);
    }
  }

  lemma {:induction false} BraceAgree(s: string, i: seq<QueueItem>, src: string)
    requires Part(s, src)
    ensures AgreeCell(i, ParseBraceVar(s, Free(i)), ParseBraceVar(s, Borrowed), src)
    decreases |s|, 2
  {
    hide WordOf;
    hide FindVarOperator;
    hide Before;
    hide Touched;
    hide Part;
    hide IsValidName;
    var close := Before(s, '}');
    if close < |s| && s[..close] != "" {
      var inner := s[..close];
      match FindVarOperator(inner, 0)
      case None =>
      case Some(op) =>
        var from := (if inner[op] == ':' then op + 1 else op) + 1;
        TakePart(s, close, src);
        DropPart(inner, from, src);
        WordAgree(inner[from..], i, src);
    }
  }

  lemma {:induction false} BacktickAgree(s: string, i: seq<QueueItem>, src: string)
    requires s != "" && Part(s, src)
    ensures AgreeCell(i, ParseBacktick(s, Free(i)), ParseBacktick(s, Borrowed), src)
    decreases |s|, 3
  {
    hide Parse;
    hide Trim;
    hide Before;
    hide Touched;
    hide Part;
    var k := Before(s[1..], '`');
    if k < |s| - 1 {
      InsidePart(s, 1, k, src);
      ParseAgree(Trim(s[1..][..k]), i, src);
    }
  }

  lemma {:induction false} WordAgree(s: string, i: seq<QueueItem>, src: string)
    requires Part(s, src)
    ensures AgreeCell(i, WordOf(s, Free(i)), WordOf(s, Borrowed), src)
    decreases |s|, 5
  {
    hide WordParts;
    hide Touched;
    hide Part;
    PartsAgree(s, "", i, src);
  }

  lemma {:induction false} PartsAgree(s: string, literal: string, i: seq<QueueItem>, src: string)
    requires Part(s, src)
    ensures AgreeCell(i, WordParts(s, literal, Free(i)), WordParts(s, literal, Borrowed), src)
    decreases |s|, 4
  {
    hide ParseDollar;
    hide ParseBacktick;
    hide Touched;
    hide Part;
    if s == "" {
    } else if s[0] == '\\' {
      if |s| > 1 {
        DropPart(s, 2, src);
        PartsAgree(s[2..], if s[1] == '\n' then literal else literal + [s[1]], i, src);
      }
    } else if s[0] == '$' || s[0] == '`' {
      var d := if s[0] == '$' then ParseDollar(s, Free(i)) else ParseBacktick(s, Free(i));
      var b := if s[0] == '$' then ParseDollar(s, Borrowed) else ParseBacktick(s, Borrowed);
      if s[0] == '$' { DollarAgree(s, i, src); } else { BacktickAgree(s, i, src); }
      var t := GoCell(i, i, false, d, b, src);
      if d.Good? {
        var rest := s[d.value.len..];
        DropPart(s, d.value.len, src);
        PartsAgree(rest, "", d.st.items, src);
        t := GoCell(i, d.st.items, t, WordParts(rest, "", d.st), WordParts(rest, "", Borrowed), src);
      }
    } else {
      DropPart(s, 1, src);
      PartsAgree(s[1..], literal + [s[0]], i, src);
    }
  }

  lemma {:induction false} DqPartsAgree(s: string, literal: string, i: seq<QueueItem>, src: string)
    requires Part(s, src)
    ensures AgreeCell(i, DqWordParts(s, literal, Free(i)), DqWordParts(s, literal, Borrowed), src)
    decreases |s|, 4
  {
    hide ParseDollar;
    hide ParseBacktick;
    hide Touched;
    hide Part;
    if s == "" {
    } else if s[0] == '$' || s[0] == '`' {
      var d := if s[0] == '$' then ParseDollar(s, Free(i)) else ParseBacktick(s, Free(i));
      var b := if s[0] == '$' then ParseDollar(s, Borrowed) else ParseBacktick(s, Borrowed);
      if s[0] == '$' { DollarAgree(s, i, src); } else { BacktickAgree(s, i, src); }
      var t := GoCell(i, i, false, d, b, src);
      if d.Good? {
        var rest := s[d.value.len..];
        DropPart(s, d.value.len, src);
        DqPartsAgree(rest, "", d.st.items, src);
        t := GoCell(i, d.st.items, t, DqWordParts(rest, "", d.st), DqWordParts(rest, "", Borrowed), src);
      }
    } else {
      DropPart(s, 1, src);
      DqPartsAgree(s[1..], literal + [s[0]], i, src);
    }
  }

  // ---------------------------------------------------------------- word tokens and redirections

  lemma {:induction false} DqLoopAgree(ps: PS, i: seq<QueueItem>, src: string)
    requires Part(ps.rest, src)
    ensures Agree(i, DqLoop(FreeAt(ps, i)), DqLoop(Lent(ps)), src)
    decreases |ps.rest|, 6
  {
    hide Lex;
    hide DqWordParts;
    hide Touched;
    hide Part;
    var p := FreeAt(ps, i);
    match Lex(ps.rest, true)
    case LexErr(_) =>
    case Tok(k, _, end) =>
      var p1 := p.(rest := ps.rest[end..]);
      assert NextDq(p) == Good(k, p1) && NextDq(Lent(ps)) == Good(k, Lent(p1));
      DropPart(ps.rest, end, src);
      TokenText(ps.rest, true, src);
      if k.TDQText? {
        DqLoopAgree(p1, i, src);
      } else if k.TWord? {
        DqPartsAgree(k.text, "", i, src);
        var x, b := DqWordParts(k.text, "", Free(i)), DqWordParts(k.text, "", Borrowed);
        var t := GoCell(i, i, false, x, b, src);
        if x.Good? {
          DqLoopAgree(p1, x.st.items, src);
          t := Go(i, x.st.items, t, DqLoop(p1.(cell := x.st)), DqLoop(Lent(p1)), src);
        }
      }
  }

  lemma {:induction false} WordTokenAgree(ps: PS, i: seq<QueueItem>, src: string)
    requires Part(ps.rest, src)
    ensures Agree(i, ParseWord(FreeAt(ps, i)), ParseWord(Lent(ps)), src)
    decreases |ps.rest|, 8
  {
    hide Lex;
    hide WordOf;
    hide DqLoop;
    hide Touched;
    hide Part;
    match Lex(ps.rest, false)
    case LexErr(_) =>
    case Tok(k, _, end) =>
      var p1 := FreeAt(ps, i).(rest := ps.rest[end..]);
      assert After(FreeAt(ps, i)) == p1 && After(Lent(ps)) == Lent(p1);
      DropPart(ps.rest, end, src);
      TokenText(ps.rest, false, src);
      if k.TDoubleQuoteOpen? {
        DqLoopAgree(p1, i, src);
      } else if k.TWord? {
        WordAgree(k.text, i, src);
      }
  }

  lemma {:induction false} DupAgree(ps: PS, fd: Option<nat>, kind: RedirectKind, i: seq<QueueItem>, src: string)
    requires Part(ps.rest, src)
    ensures Agree(i, ParseDupRedirect(FreeAt(ps, i), fd, kind), ParseDupRedirect(Lent(ps), fd, kind), src)
    decreases |ps.rest|, 9
  {
    hide Lex;
    hide ParseWord;
    hide Touched;
    hide Part;
    WordTokenAgree(ps, i, src);
    if Lex(ps.rest, false).Tok? { TokenAgree(ps, i, src); }
  }

  lemma {:induction false} RedirectAgree(ps: PS, i: seq<QueueItem>, src: string)
    requires Part(ps.rest, src)
    requires Lex(ps.rest, false).Tok? && (Lex(ps.rest, false).kind.TRedirect? || Lex(ps.rest, false).kind.THereDoc?)
    ensures Agree(i, ParseRedirect(FreeAt(ps, i)), ParseRedirect(Lent(ps)), src)
    decreases |ps.rest|, 10
  {
    hide Lex;
    hide ParseWord;
    hide ParseDupRedirect;
    hide Touched;
    hide Part;
    var k, p1 := Lex(ps.rest, false).kind, After(FreeAt(ps, i));
    TokenAgree(ps, i, src);
    if k.TRedirect? {
      var fd := Some(if k.fd.Some? then k.fd.value else DefaultFd(k.op));
      DupAgree(p1, fd, if k.op.GreaterAmp? then Write else Read, i, src);
      WordTokenAgree(p1, i, src);
    }
  }

  lemma {:induction false} AssignmentAgree(ps: PS, i: seq<QueueItem>, src: string)
    requires Part(ps.rest, src) && Lex(ps.rest, false).Tok? && Lex(ps.rest, false).kind.TWord?
    requires SplitAssignment(Lex(ps.rest, false).kind.text).Some?
    ensures Agree(i, ParseAssignment(FreeAt(ps, i)), ParseAssignment(Lent(ps)), src)
    decreases |ps.rest|, 19
  {
    hide Lex;
    hide WordOf;
    hide SplitAssignment;
    hide Touched;
    hide Part;
    var k := Lex(ps.rest, false).kind;
    TokenAgree(ps, i, src);
    TokenText(ps.rest, false, src);
    DropPart(k.text, |k.text| - |SplitAssignment(k.text).value.1|, src);
    AssignedText(k.text);
    WordAgree(SplitAssignment(k.text).value.1, i, src);
  }

  lemma AssignedText(text: string)
    requires SplitAssignment(text).Some?
    ensures var v := SplitAssignment(text).value.1; v == text[|text| - |v|..]
  {
  }

  lemma LookaheadAgree(ps: PS, first: bool, i: seq<QueueItem>, src: string)
    requires Part(ps.rest, src)
    ensures Agree(i, FunctionLookahead(FreeAt(ps, i), first), FunctionLookahead(Lent(ps), first), src)
  {
    hide Lex;
    hide Touched;
    hide Part;
    if Lex(ps.rest, false).Tok? { TokenAgree(ps, i, src); }
  }

  lemma {:induction false} SimpleAgree(ps: PS, sc: SimpleCommand, i: seq<QueueItem>, src: string)
    requires Part(ps.rest, src)
    ensures Agree(i, SimpleLoop(FreeAt(ps, i), sc), SimpleLoop(Lent(ps), sc), src)
    decreases |ps.rest|, 20
  {
    hide Lex;
    hide Touched;
    hide Part;
    hide ParseRedirect;
    hide ParseAssignment;
    hide ParseWord;
    hide FunctionLookahead;
    hide SplitAssignment;
    var p := FreeAt(ps, i);
    match Lex(ps.rest, false)
    case LexErr(_) =>
    case Tok(k, _, _) =>
      if IsStop(k) {
      } else if k.TRedirect? || k.THereDoc? {
        RedirectAgree(ps, i, src);
        var x, b := ParseRedirect(p), ParseRedirect(Lent(ps));
        var t := Go(i, i, false, x, b, src);
        if x.Good? {
          var next := sc.(redirects := sc.redirects + [x.value]);
          SimpleAgree(x.st, next, x.st.cell.items, src);
          t := Go(i, x.st.cell.items, t, SimpleLoop(x.st, next), SimpleLoop(Lent(x.st), next), src);
        }
      } else if StartsWord(k) {
        if sc.name.None? && k.TWord? && SplitAssignment(k.text).Some? {
          AssignmentAgree(ps, i, src);
          var x, b := ParseAssignment(p), ParseAssignment(Lent(ps));
          var t := Go(i, i, false, x, b, src);
          if x.Good? {
            var next := sc.(assignments := sc.assignments + [x.value]);
            SimpleAgree(x.st, next, x.st.cell.items, src);
            t := Go(i, x.st.cell.items, t, SimpleLoop(x.st, next), SimpleLoop(Lent(x.st), next), src);
          }
        } else {
          LookaheadAgree(ps, sc.name.None?, i, src);
          WordTokenAgree(ps, i, src);
          var x, b := ParseWord(p), ParseWord(Lent(ps));
          var t := Go(i, i, false, x, b, src);
          if x.Good? {
            var next := if sc.name.None? then sc.(name := Some(x.value)) else sc.(args := sc.args + [x.value]);
            SimpleAgree(x.st, next, x.st.cell.items, src);
            t := Go(i, x.st.cell.items, t, SimpleLoop(x.st, next), SimpleLoop(Lent(x.st), next), src);
          }
        }
      }
  }

  // ---------------------------------------------------------------- newlines

  lemma {:induction false} BodyIsSmall(s: string, p: Pending)
    ensures OneBody(s, p).Bodies? ==> |OneBody(s, p).bodies[0]| <= |s|
    decreases |s|
  {
    hide IsDelimiterLine;
    hide Before;
    var k := Before(s, '\n');
    var next := if k < |s| then k + 1 else k;
    if !IsDelimiterLine(s[..k], p) && next < |s| { BodyIsSmall(s[next..], p); }
  }

  lemma {:induction false} BodiesAreFound(s: string, ps: seq<Pending>, src: string)
    requires Part(s, src) && AllBodies(s, ps).Bodies?
    ensures AllFound(Queued(ps, AllBodies(s, ps).bodies), src)
    decreases |ps|
  {
    hide OneBody;
    hide AllBodies;
    hide Part;
    hide Found;
    if ps != [] {
      BodiesOf(s, ps);
      var one := OneBody(s, ps[0]);
      var more := AllBodies(s[one.len..], ps[1..]);
      DropPart(s, one.len, src);
      BodiesAreFound(s[one.len..], ps[1..], src);
      assert ps == [ps[0]] + ps[1..];
      FirstIsFound(s, ps[0], ps[1..], more.bodies, src);
    }
  }

  lemma FirstIsFound(s: string, p: Pending, ps: seq<Pending>, bodies: seq<string>, src: string)
    requires Part(s, src) && OneBody(s, p).Bodies?
    requires |bodies| == |ps| && AllFound(Queued(ps, bodies), src)
    ensures AllFound(Queued([p] + ps, [OneBody(s, p).bodies[0]] + bodies), src)
  {
    hide OneBody;
    hide Part;
    hide Found;
    var item := QueueItem(p.quoted, OneBody(s, p).bodies[0]);
    IsFound(item, s, p, src);
    AllFoundConcat([item], Queued(ps, bodies), src);
    assert Queued([p] + ps, [item.body] + bodies) == [item] + Queued(ps, bodies);
  }

  lemma IsFound(item: QueueItem, s: string, p: Pending, src: string)
    requires Part(s, src) && IsBodyOf(item, s, p)
    ensures Found(item, src)
  {
  }

  lemma FlushAgree(ps: PS, i: seq<QueueItem>, src: string)
    requires Part(ps.rest, src)
    ensures Agree(i, Flush(FreeAt(ps, i)), Flush(Lent(ps)), src)
  {
    hide AllBodies;
    hide AllFound;
    hide Part;
    if ps.pend != [] && AllBodies(ps.rest, ps.pend).Bodies? {
      var bodies := AllBodies(ps.rest, ps.pend);
      var q := Queued(ps.pend, bodies.bodies);
      BodiesAreFound(ps.rest, ps.pend, src);
      DropPart(ps.rest, bodies.len, src);
      assert Added(i, i + q, q, src);
    }
  }

  lemma TokenAgree(ps: PS, i: seq<QueueItem>, src: string)
    requires Lex(ps.rest, false).Tok? && Part(ps.rest, src)
    ensures After(FreeAt(ps, i)) == FreeAt(After(ps), i) && After(Lent(ps)) == Lent(After(ps))
    ensures Part(After(ps).rest, src)
  {
    hide Lex;
    hide Part;
    DropPart(ps.rest, Lex(ps.rest, false).end, src);
  }

  lemma {:induction false} NewlinesAgree(ps: PS, i: seq<QueueItem>, src: string)
    requires Part(ps.rest, src)
    ensures Agree(i, SkipNewlines(FreeAt(ps, i)), SkipNewlines(Lent(ps)), src)
    decreases |ps.rest|
  {
    hide Lex;
    hide Flush;
    hide Touched;
    hide Part;
    if Lex(ps.rest, false).Tok? && Lex(ps.rest, false).kind.TNewline? {
      TokenAgree(ps, i, src);
      var p1 := After(ps);
      FlushAgree(p1, i, src);
      var x, b := Flush(FreeAt(p1, i)), Flush(Lent(p1));
      var t := Go(i, i, false, x, b, src);
      if x.Good? {
        NewlinesAgree(x.st, x.st.cell.items, src);
        t := Go(i, x.st.cell.items, t, SkipNewlines(x.st), SkipNewlines(Lent(x.st)), src);
      }
    }
  }

  lemma SeparatorAgree(ps: PS, i: seq<QueueItem>, src: string)
    requires Part(ps.rest, src)
    ensures Agree(i, SkipSeparator(FreeAt(ps, i)), SkipSeparator(Lent(ps)), src)
  {
    hide Lex;
    hide Touched;
    hide Part;
    if Lex(ps.rest, false).Tok? { TokenAgree(ps, i, src); }
  }

  // ---------------------------------------------------------------- the grammar

  /** A whole text: with a borrowed queue even a successful parse ends in an abort. */
  lemma {:induction false} ParseAgree(s: string, i: seq<QueueItem>, src: string)
    requires Part(s, src)
    ensures AgreeCell(i, Parse(s, Free(i)), Parse(s, Borrowed), src)
    decreases |s|, 30
  {
    hide ParseScript;
    hide FillScript;
    var ps := PS(s, [], Borrowed);
    ScriptAgree(ps, i, src);
    EmptiedIsTouched(i, src);
    assert FreeAt(ps, i) == PS(s, [], Free(i)) && Lent(ps) == ps;
  }

  lemma {:induction false} ScriptAgree(ps: PS, i: seq<QueueItem>, src: string)
    requires Part(ps.rest, src)
    ensures Agree(i, ParseScript(FreeAt(ps, i)), ParseScript(Lent(ps)), src)
    decreases |ps.rest|, 29
  {
    hide ScriptLoop;
    hide SkipNewlines;
    hide Touched;
    hide Part;
    NewlinesAgree(ps, i, src);
    var x, b := SkipNewlines(FreeAt(ps, i)), SkipNewlines(Lent(ps));
    var t := Go(i, i, false, x, b, src);
    if x.Good? {
      ScriptLoopAgree(x.st, x.st.cell.items, src);
      t := Go(i, x.st.cell.items, t, ScriptLoop(x.st), ScriptLoop(Lent(x.st)), src);
    }
  }

  lemma {:induction false} ScriptLoopAgree(ps: PS, i: seq<QueueItem>, src: string)
    requires Part(ps.rest, src) && !HeadIs(ps.rest, TNewline)
    ensures Agree(i, ScriptLoop(FreeAt(ps, i)), ScriptLoop(Lent(ps)), src)
    decreases |ps.rest|, 28
  {
    hide Lex;
    hide ParseListItem;
    hide SkipSeparator;
    hide SkipNewlines;
    hide Touched;
    hide Part;
    if Lex(ps.rest, false).Tok? && !IsScriptEnd(Lex(ps.rest, false).kind) {
      ItemAgree(ps, i, src);
      var x1, b1 := ParseListItem(FreeAt(ps, i)), ParseListItem(Lent(ps));
      var t := Go(i, i, false, x1, b1, src);
      if x1.Good? {
        var j1 := x1.st.cell.items;
        SeparatorAgree(x1.st, j1, src);
        var x2 := SkipSeparator(x1.st);
        t := Go(i, j1, t, x2, SkipSeparator(Lent(x1.st)), src);
        if x2.Good? {
          var j2 := x2.st.cell.items;
          NewlinesAgree(x2.st, j2, src);
          var x3 := SkipNewlines(x2.st);
          t := Go(i, j2, t, x3, SkipNewlines(Lent(x2.st)), src);
          if x3.Good? {
            ScriptLoopAgree(x3.st, x3.st.cell.items, src);
            t := Go(i, x3.st.cell.items, t, ScriptLoop(x3.st), ScriptLoop(Lent(x3.st)), src);
          }
        }
      }
    }
  }

  lemma {:induction false} ItemAgree(ps: PS, i: seq<QueueItem>, src: string)
    requires Part(ps.rest, src)
    ensures Agree(i, ParseListItem(FreeAt(ps, i)), ParseListItem(Lent(ps)), src)
    decreases |ps.rest|, 27
  {
    hide Lex;
    hide ParsePipelineCmd;
    hide ListLoop;
    hide Touched;
    hide Part;
    PipelineCmdAgree(ps, i, src);
    var x1, b1 := ParsePipelineCmd(FreeAt(ps, i)), ParsePipelineCmd(Lent(ps));
    var t := Go(i, i, false, x1, b1, src);
    if x1.Good? {
      var j1 := x1.st.cell.items;
      ListAgree(x1.value, x1.st, j1, src);
      var x2 := ListLoop(x1.value, x1.st);
      t := Go(i, j1, t, x2, ListLoop(x1.value, Lent(x1.st)), src);
      if x2.Good? && Lex(x2.st.rest, false).Tok? { TokenAgree(x2.st, x2.st.cell.items, src); }
    }
  }

  lemma {:induction false} ListAgree(left: Command, ps: PS, i: seq<QueueItem>, src: string)
    requires Part(ps.rest, src)
    ensures Agree(i, ListLoop(left, FreeAt(ps, i)), ListLoop(left, Lent(ps)), src)
    decreases |ps.rest|, 26
  {
    hide Lex;
    hide ParsePipelineCmd;
    hide SkipNewlines;
    hide Touched;
    hide Part;
    if Lex(ps.rest, false).Tok? && (Lex(ps.rest, false).kind.TAndAnd? || Lex(ps.rest, false).kind.TOrOr?) {
      TokenAgree(ps, i, src);
      var p1 := After(ps);
      NewlinesAgree(p1, i, src);
      var x2, b2 := SkipNewlines(FreeAt(p1, i)), SkipNewlines(Lent(p1));
      var t := Go(i, i, false, x2, b2, src);
      if x2.Good? {
        PipelineCmdAgree(x2.st, x2.st.cell.items, src);
        var x3 := ParsePipelineCmd(x2.st);
        t := Go(i, x2.st.cell.items, t, x3, ParsePipelineCmd(Lent(x2.st)), src);
        if x3.Good? {
          var next := if Lex(ps.rest, false).kind.TAndAnd? then And(left, x3.value) else Or(left, x3.value);
          ListAgree(next, x3.st, x3.st.cell.items, src);
          t := Go(i, x3.st.cell.items, t, ListLoop(next, x3.st), ListLoop(next, Lent(x3.st)), src);
        }
      }
    }
  }

  lemma {:induction false} PipelineCmdAgree(ps: PS, i: seq<QueueItem>, src: string)
    requires Part(ps.rest, src)
    ensures Agree(i, ParsePipelineCmd(FreeAt(ps, i)), ParsePipelineCmd(Lent(ps)), src)
    decreases |ps.rest|, 25
  {
    hide Lex;
    hide ParsePipeline;
    hide Touched;
    hide Part;
    if Lex(ps.rest, false).Tok? {
      TokenAgree(ps, i, src);
      if Lex(ps.rest, false).kind.TBang? { PipelineAgree(After(ps), true, i, src); } else { PipelineAgree(ps, false, i, src); }
    }
  }

  lemma {:induction false} PipelineAgree(ps: PS, negated: bool, i: seq<QueueItem>, src: string)
    requires Part(ps.rest, src)
    ensures Agree(i, ParsePipeline(FreeAt(ps, i), negated), ParsePipeline(Lent(ps), negated), src)
    decreases |ps.rest|, 24
  {
    hide Lex;
    hide ParseCommand;
    hide StageLoop;
    hide Touched;
    hide Part;
    CommandAgree(ps, i, src);
    var x1, b1 := ParseCommand(FreeAt(ps, i)), ParseCommand(Lent(ps));
    var t := Go(i, i, false, x1, b1, src);
    if x1.Good? {
      StagesAgree(x1.st, x1.st.cell.items, src);
      t := Go(i, x1.st.cell.items, t, StageLoop(x1.st), StageLoop(Lent(x1.st)), src);
    }
  }

  lemma {:induction false} StagesAgree(ps: PS, i: seq<QueueItem>, src: string)
    requires Part(ps.rest, src)
    ensures Agree(i, StageLoop(FreeAt(ps, i)), StageLoop(Lent(ps)), src)
    decreases |ps.rest|, 23
  {
    hide Lex;
    hide ParseCommand;
    hide SkipNewlines;
    hide Touched;
    hide Part;
    if Lex(ps.rest, false).Tok? && Lex(ps.rest, false).kind.TPipe? {
      TokenAgree(ps, i, src);
      var p1 := After(ps);
      NewlinesAgree(p1, i, src);
      var x2, b2 := SkipNewlines(FreeAt(p1, i)), SkipNewlines(Lent(p1));
      var t := Go(i, i, false, x2, b2, src);
      if x2.Good? {
        CommandAgree(x2.st, x2.st.cell.items, src);
        var x3 := ParseCommand(x2.st);
        t := Go(i, x2.st.cell.items, t, x3, ParseCommand(Lent(x2.st)), src);
        if x3.Good? {
          StagesAgree(x3.st, x3.st.cell.items, src);
          t := Go(i, x3.st.cell.items, t, StageLoop(x3.st), StageLoop(Lent(x3.st)), src);
        }
      }
    }
  }

  lemma {:induction false} CommandAgree(ps: PS, i: seq<QueueItem>, src: string)
    requires Part(ps.rest, src)
    ensures Agree(i, ParseCommand(FreeAt(ps, i)), ParseCommand(Lent(ps)), src)
    decreases |ps.rest|, 22
  {
    hide Lex;
    hide ParseSubshell;
    hide ParseGroup;
    hide SimpleLoop;
    hide Touched;
    hide Part;
    hide IsReserved;
    if Lex(ps.rest, false).Tok? {
      var k := Lex(ps.rest, false).kind;
      if k.TLParen? {
        SubshellAgree(ps, i, src);
      } else if k.TLBrace? {
        GroupAgree(ps, i, src);
      } else {
        SimpleAgree(ps, EmptySimple, i, src);
      }
    }
  }

  lemma {:induction false} SubshellAgree(ps: PS, i: seq<QueueItem>, src: string)
    requires Part(ps.rest, src) && HeadIs(ps.rest, TLParen)
    ensures Agree(i, ParseSubshell(FreeAt(ps, i)), ParseSubshell(Lent(ps)), src)
    decreases |ps.rest|, 21
  {
    hide Lex;
    hide ParseScript;
    hide SkipNewlines;
    hide Touched;
    hide Part;
    TokenAgree(ps, i, src);
    var p1 := After(ps);
    NewlinesAgree(p1, i, src);
    var x2, b2 := SkipNewlines(FreeAt(p1, i)), SkipNewlines(Lent(p1));
    var t := Go(i, i, false, x2, b2, src);
    if x2.Good? {
      ScriptAgree(x2.st, x2.st.cell.items, src);
      var x3 := ParseScript(x2.st);
      t := Go(i, x2.st.cell.items, t, x3, ParseScript(Lent(x2.st)), src);
      if x3.Good? && Lex(x3.st.rest, false).Tok? { TokenAgree(x3.st, x3.st.cell.items, src); }
    }
  }

  lemma {:induction false} GroupAgree(ps: PS, i: seq<QueueItem>, src: string)
    requires Part(ps.rest, src) && HeadIs(ps.rest, TLBrace)
    ensures Agree(i, ParseGroup(FreeAt(ps, i)), ParseGroup(Lent(ps)), src)
    decreases |ps.rest|, 21
  {
    hide Lex;
    hide ParseScript;
    hide SkipNewlines;
    hide EndGroup;
    hide Touched;
    hide Part;
    TokenAgree(ps, i, src);
    var p1 := After(ps);
    NewlinesAgree(p1, i, src);
    var x2, b2 := SkipNewlines(FreeAt(p1, i)), SkipNewlines(Lent(p1));
    var t := Go(i, i, false, x2, b2, src);
    if x2.Good? {
      ScriptAgree(x2.st, x2.st.cell.items, src);
      var x3 := ParseScript(x2.st);
      t := Go(i, x2.st.cell.items, t, x3, ParseScript(Lent(x2.st)), src);
      if x3.Good? {
        EndAgree(x3.value, x3.st, x3.st.cell.items, src);
        t := Go(i, x3.st.cell.items, t, EndGroup(x3.value, x3.st), EndGroup(x3.value, Lent(x3.st)), src);
      }
    }
  }

  lemma EndAgree(body: seq<Command>, ps: PS, i: seq<QueueItem>, src: string)
    requires Part(ps.rest, src)
    ensures Agree(i, EndGroup(body, FreeAt(ps, i)), EndGroup(body, Lent(ps)), src)
  {
    hide Lex;
    hide SkipNewlines;
    hide SkipSeparator;
    hide Touched;
    hide Part;
    SeparatorAgree(ps, i, src);
    var x1, b1 := SkipSeparator(FreeAt(ps, i)), SkipSeparator(Lent(ps));
    var t := Go(i, i, false, x1, b1, src);
    if x1.Good? {
      NewlinesAgree(x1.st, x1.st.cell.items, src);
      var x2 := SkipNewlines(x1.st);
      t := Go(i, x1.st.cell.items, t, x2, SkipNewlines(Lent(x1.st)), src);
      if x2.Good? && Lex(x2.st.rest, false).Tok? { TokenAgree(x2.st, x2.st.cell.items, src); }
    }
  }

  // ---------------------------------------------------------------- when a borrowed parse aborts

  /** A body that no text of `n` characters can leave in the queue. */
  function Mark(n: nat): QueueItem {
    QueueItem(true, seq(n + 1, i => 'x'))
  }

  /** With a marked queue the text parses, or changes the queue before its first error: a nested
      script is completed, or a heredoc's body is collected. */
  predicate Disturbs(s: string) {
    var marked := Free([Mark(|s|)]);
    var r := Parse(s, marked);
    r.Good? || r.queue != marked
  }

  lemma PartIsShort(a: string, b: string)
    requires Part(a, b)
    ensures |a| <= |b|
  {
  }

  lemma FoundIsShort(item: QueueItem, src: string)
    requires Found(item, src)
    ensures |item.body| <= |src|
  {
    hide OneBody;
    hide Part;
    var s: string, p: Pending :| Part(s, src) && IsBodyOf(item, s, p);
    BodyIsSmall(s, p);
    PartIsShort(s, src);
  }

  lemma MarkStays(c: Cell, src: string)
    requires Touched([Mark(|src|)], c, src)
    ensures c != Free([Mark(|src|)])
  {
    hide Found;
    var i := [Mark(|src|)];
    var more :| Added(i, c.items, more, src);
    if c.items == more && more != [] { FoundIsShort(more[0], src); }
  }

  /** Exactly those texts abort when they are parsed with the queue borrowed; every other one ends in
      the syntax error it would end in anyway. */
  lemma BorrowedParse(s: string)
    ensures Parse(s, Borrowed) ==
            if Disturbs(s) then Bad(Aborted, Borrowed) else Bad(Parse(s, Free([Mark(|s|)])).why, Parse(s, Borrowed).queue)
    ensures Parse(s, Borrowed) == Bad(Aborted, Borrowed) <==> Disturbs(s)
  {
    hide Parse;
    hide Touched;
    hide Part;
    var i := [Mark(|s|)];
    WholeIsPart(s);
    ParseAgree(s, i, s);
    var r, b := Parse(s, Free(i)), Parse(s, Borrowed);
    if b.why == Aborted && r.Bad? { MarkStays(r.queue, s); }
  }

  /** What a failing parse leaves in the queue: what was there, if nothing happened before the error;
      otherwise bodies collected from the text, alone when a nested script was completed, or at least
      one of them behind what was there. */
  lemma QueueAfterAnError(s: string, items: seq<QueueItem>)
    requires Parse(s, Free(items)).Bad?
    ensures var left := Parse(s, Free(items)).queue;
            if !Disturbs(s) then left == Free(items)
            else left.Free? && exists new_ :: AllFound(new_, s) && (left.items == new_ || (new_ != [] && left.items == items + new_))
  {
    hide Parse;
    hide Part;
    hide AllFound;
    WholeIsPart(s);
    ParseAgree(s, items, s);
    BorrowedParse(s);
    var left := Parse(s, Free(items)).queue;
    if Disturbs(s) { assert exists new_ :: Added(items, left.items, new_, s); }
  }

  /** In particular every text that parses. */
  lemma WhatParsesAborts(s: string, items: seq<QueueItem>)
    requires Parse(s, Free(items)).Good?
    ensures Parse(s, Borrowed) == Bad(Aborted, Borrowed)
  {
    hide Parse;
    hide Touched;
    hide Part;
    WholeIsPart(s);
    ParseAgree(s, items, s);
  }

  /** The same for splitting an unquoted body into its parts. */
  predicate BodyDisturbs(body: string) {
    var marked := Free([Mark(|body|)]);
    var r := DqWordParts(body, "", marked);
    (if r.Good? then r.st else r.queue) != marked
  }

  /** What becomes of any heredoc body. A quoted one is literal. An unquoted one aborts the parse
      exactly when one of its substitutions disturbs the queue; otherwise it is split into parts
      among which there is no command substitution, or kept as raw text if it does not split. */
  lemma BodyOutcome(item: QueueItem)
    ensures item.quoted ==> BodyOf(item) == Good(LiteralBody(item.body), ())
    ensures !item.quoted ==> (BodyOf(item) == Bad(Aborted, Borrowed) <==> BodyDisturbs(item.body))
    ensures !item.quoted && !BodyDisturbs(item.body) ==>
              var split := DqWordParts(item.body, "", Free([Mark(|item.body|)]));
              && BodyOf(item).Good?
              && BodyOf(item).value == PartsBody(if split.Good? then split.value else [DQLiteral(item.body)])
    ensures BodyOf(item).Good? && BodyOf(item).value.PartsBody? ==> !AnyPart(BodyOf(item).value.parts)
  {
    hide DqWordParts;
    hide Touched;
    hide Part;
    var i := [Mark(|item.body|)];
    WholeIsPart(item.body);
    DqPartsAgree(item.body, "", i, item.body);
    DqPartsEffect(item.body, "", Borrowed);
    LiteralHasNone(item.body);
    var r, b := DqWordParts(item.body, "", Free(i)), DqWordParts(item.body, "", Borrowed);
    if b.Bad? && b.why == Aborted { MarkStays(if r.Good? then r.st else r.queue, item.body); }
  }
}
