/** The parser: a lexer with a one-token peek slot, and the thread's heredoc queue. Every method
    refines its function in `ParseSpec`, which knows neither the slot nor the backtracking. */
module ParserObject {
  import opened Ast
  import opened Decimal
  import opened LexSpec
  import opened LexerObject
  import opened ParseSpec

  datatype Out<+T> = Done(value: T) | Stop(why: Why) {
    predicate IsFailure() { Stop? }

    function PropagateFailure<U>(): Out<U>
      requires Stop?
    {
      Stop(why)
    }

    function Extract(): T
      requires Done?
    {
      value
    }
  }

  /** The thread-local queue of heredoc bodies, shared by every parser of the thread. */
  class HeredocQueue {
    var cell: Cell

    constructor ()
      ensures cell == Free([])
    {
      cell := Free([]);
    }
  }

  /** A method that only touches the queue did what its function says. */
  ghost predicate Yields<T(!new)>(s: Res<T, Cell>, r: Out<T>, cell: Cell) {
    match s
    case Good(v, c) => r == Done(v) && cell == c
    case Bad(w, c) => r == Stop(w) && cell == c
  }

  class Parser {
    const lexer: Lexer
    const queue: HeredocQueue
    var peeked: Option<Token>
    var inDq: bool
    var pending: seq<Pending>
    /** How far the grammar has read; behind it the peek slot may hold one token. */
    ghost var cursor: nat

    ghost predicate Valid()
      reads this, lexer
    {
      && lexer.Valid()
      && cursor <= |lexer.src|
      && match peeked
         case None => lexer.pos == cursor
         case Some(t) =>
           match Lex(lexer.src[cursor..], inDq)
           case Tok(k, a, b) => t == Token(k, cursor + a, b - a) && lexer.pos == cursor + b
           case LexErr(_) => false
    }

    ghost function State(): PS
      reads this, lexer, queue
      requires Valid()
    {
      PS(lexer.src[cursor..], pending, queue.cell)
    }

    ghost predicate Ready()
      reads this, lexer
    {
      Valid() && !inDq
    }

    /** The method's result and the state it leaves are the function's. */
    ghost predicate Meets<T(!new)>(s: Res<T, PS>, r: Out<T>)
      reads this, lexer, queue
    {
      match s
      case Good(v, st) => r == Done(v) && Ready() && State() == st
      case Bad(w, c) => r == Stop(w) && queue.cell == c
    }

    constructor (src: string, queue: HeredocQueue)
      ensures fresh(lexer) && this.queue == queue && Ready()
      ensures State() == PS(src, [], queue.cell)
    {
      lexer := new Lexer(src);
      this.queue := queue;
      peeked, inDq, pending, cursor := None, false, [], 0;
      new;
      assert src[0..] == src;
    }

    // -------------------------------------------------------------- token management

    /** Fills the peek slot if it is empty; what the grammar has read does not change. */
    method PeekToken() returns (r: Out<Token>)
      requires Valid()
      modifies this`peeked, lexer
      ensures match Lex(old(State().rest), inDq)
              case Tok(k, a, b) => r == Done(Token(k, cursor + a, b - a)) && Valid() && peeked == Some(r.value)
              case LexErr(e) => r == Stop(Syntax(e))
    {
      hide Lex;
      if peeked.None? {
        var t := lexer.NextToken(inDq);
        match t {
          case Failed(e) => return Stop(Syntax(e));
          case Got(token) => peeked := Some(token);
        }
      }
      return Done(peeked.value);
    }

    method NextToken() returns (r: Out<Token>)
      requires Valid()
      modifies this`peeked, this`cursor, lexer
      ensures match Lex(old(State().rest), inDq)
              case Tok(k, a, b) =>
                && r == Done(Token(k, old(cursor) + a, b - a)) && Valid() && peeked.None?
                && State() == old(State()).(rest := old(State().rest)[b..])
              case LexErr(e) => r == Stop(Syntax(e))
    {
      hide Lex;
      ghost var l := Lex(lexer.src[cursor..], inDq);
      if l.Tok? { Tail(lexer.src, cursor, l.end); }
      if peeked.Some? {
        r := Done(peeked.value);
        peeked := None;
        cursor := lexer.pos;
        return;
      }
      var t := lexer.NextToken(inDq);
      match t {
        case Failed(e) => return Stop(Syntax(e));
        case Got(token) =>
          cursor := lexer.pos;
          return Done(token);
      }
    }

    /** Consumes the token that is known to be there. */
    method Take()
      requires Ready() && Lex(State().rest, false).Tok?
      modifies this`peeked, this`cursor, lexer
      ensures Ready() && peeked.None? && State() == After(old(State()))
    {
      hide Lex;
      var _ := NextToken();
    }

    method FlushHeredocs() returns (r: Out<()>)
      requires Ready() && peeked.None?
      modifies this, lexer, queue
      ensures Meets(Flush(old(State())), r)
    {
      hide Lex;
      hide AllBodies;
      if pending == [] { return Done(()); }
      var heredocs := pending;
      pending := [];
      var bodies := lexer.CollectHeredocBodies(heredocs);
      match bodies {
        case Failed(e) => return Stop(Syntax(e));
        case Got(bs) =>
          match queue.cell {
            case Borrowed => return Stop(Aborted);
            case Free(items) =>
              Tail(lexer.src, cursor, lexer.pos - cursor);
              queue.cell := Free(items + Queued(heredocs, bs));
              cursor := lexer.pos;
              return Done(());
          }
      }
    }

    method SkipNewlines() returns (r: Out<()>)
      requires Ready()
      modifies this, lexer, queue
      ensures Meets(ParseSpec.SkipNewlines(old(State())), r)
    {
      hide Lex;
      hide Flush;
      ghost var start := State();
      while true
        invariant Ready()
        invariant ParseSpec.SkipNewlines(start) == ParseSpec.SkipNewlines(State())
        decreases |State().rest|
      {
        var t :- PeekToken();
        if !t.kind.TNewline? { return Done(()); }
        Take();
        var _ :- FlushHeredocs();
      }
    }

    // -------------------------------------------------------------- grammar

    method ParseScript() returns (r: Out<seq<Command>>)
      requires Ready()
      modifies this, lexer, queue
      ensures Meets(ParseSpec.ParseScript(old(State())), r)
      decreases Rank(queue.cell), |State().rest|, 29
    {
      hide Lex;
      hide ParseSpec.ParseListItem;
      hide SkipSeparator;
      hide ParseSpec.SkipNewlines;
      var _ :- SkipNewlines();
      ghost var start := State();
      var cmds: seq<Command> := [];
      NoPrefix(ScriptLoop(start));
      while true
        invariant Ready() && !HeadIs(State().rest, TNewline)
        invariant Kept(start, State())
        invariant ScriptLoop(start) == Prefixed(cmds, ScriptLoop(State()))
        decreases |State().rest|
      {
        var t :- PeekToken();
        if IsScriptEnd(t.kind) {
          assert cmds + [] == cmds;
          return Done(cmds);
        }
        var c :- ParseListItem();
        var _ :- SkipListSeparator();
        var _ :- SkipNewlines();
        PrefixedTwice(cmds, [c], ScriptLoop(State()));
        cmds := cmds + [c];
      }
    }

    method ParseListItem() returns (r: Out<Command>)
      requires Ready()
      modifies this, lexer, queue
      ensures Meets(ParseSpec.ParseListItem(old(State())), r)
      decreases Rank(queue.cell), |State().rest|, 27
    {
      hide Lex;
      hide ParseSpec.ParsePipelineCmd;
      hide ParseSpec.SkipNewlines;
      hide HeadStops;
      hide EndsItem;
      ghost var start := State();
      var left :- ParsePipelineCmd();
      ghost var first, s1 := left, State();
      while true
        invariant Ready() && Kept(start, State())
        invariant ListLoop(first, s1) == ListLoop(left, State())
        decreases |State().rest|
      {
        var t :- PeekToken();
        if !t.kind.TAndAnd? && !t.kind.TOrOr? { break; }
        Take();
        var _ :- SkipNewlines();
        var right :- ParsePipelineCmd();
        left := if t.kind.TAndAnd? then And(left, right) else Or(left, right);
      }
      var last := PeekToken();
      if last.value.kind.TAmp? {
        Take();
        left := Background(left);
      }
      return Done(left);
    }

    method SkipListSeparator() returns (r: Out<bool>)
      requires Ready()
      modifies this, lexer
      ensures Meets(SkipSeparator(old(State())), r)
    {
      var t :- PeekToken();
      if t.kind.TSemi? {
        Take();
        return Done(true);
      }
      return Done(false);
    }

    method ParsePipelineCmd() returns (r: Out<Command>)
      requires Ready()
      modifies this, lexer, queue
      ensures Meets(ParseSpec.ParsePipelineCmd(old(State())), r)
      decreases Rank(queue.cell), |State().rest|, 25
    {
      var t :- PeekToken();
      if t.kind.TBang? {
        Take();
        r := ParsePipeline(true);
      } else {
        r := ParsePipeline(false);
      }
    }

    method ParsePipeline(negated: bool) returns (r: Out<Command>)
      requires Ready()
      modifies this, lexer, queue
      ensures Meets(ParseSpec.ParsePipeline(old(State()), negated), r)
      decreases Rank(queue.cell), |State().rest|, 24
    {
      hide Lex;
      hide ParseSpec.ParseCommand;
      hide StageLoop;
      var first :- ParseCommand();
      var t :- PeekToken();
      if !t.kind.TPipe? {
        if negated {
          if first.Simple? { return Done(Pipe(Pipeline([first.sc], true))); }
        }
        return Done(first);
      }
      if !first.Simple? { return Stop(Syntax(OnlySimpleStages)); }
      var stages :- ParseStages(first.sc);
      return Done(Pipe(Pipeline(stages, negated)));
    }

    /** The stages of a pipeline, behind the first. */
    method ParseStages(first: SimpleCommand) returns (r: Out<seq<SimpleCommand>>)
      requires Ready()
      modifies this, lexer, queue
      ensures Meets(Prefixed([first], StageLoop(old(State()))), r)
      decreases Rank(queue.cell), |State().rest|, 23
    {
      hide Lex;
      hide ParseSpec.ParseCommand;
      hide ParseSpec.SkipNewlines;
      hide HeadStops;
      ghost var start := State();
      var stages := [first];
      while true
        invariant Ready() && Kept(start, State())
        invariant Prefixed([first], StageLoop(start)) == Prefixed(stages, StageLoop(State()))
        decreases |State().rest|
      {
        var next :- PeekToken();
        if !next.kind.TPipe? { break; }
        Take();
        var _ :- SkipNewlines();
        var c :- ParseCommand();
        if !c.Simple? { return Stop(Syntax(OnlySimpleStages)); }
        PrefixedTwice(stages, [c.sc], StageLoop(State()));
        stages := stages + [c.sc];
      }
      assert stages + [] == stages;
      return Done(stages);
    }

    method ParseCommand() returns (r: Out<Command>)
      requires Ready()
      modifies this, lexer, queue
      ensures Meets(ParseSpec.ParseCommand(old(State())), r)
      decreases Rank(queue.cell), |State().rest|, 22
    {
      hide Lex;
      hide SimpleLoop;
      hide ParseSpec.ParseSubshell;
      hide ParseSpec.ParseGroup;
      var t :- PeekToken();
      if t.kind.TLParen? {
        r := ParseSubshell();
      } else if t.kind.TLBrace? {
        r := ParseGroup();
      } else if t.kind.TWord? && IsReserved(t.kind.text) {
        return Stop(Syntax(UnsupportedKeyword(t.kind.text)));
      } else {
        var sc :- ParseSimpleCommand();
        return Done(Simple(sc));
      }
    }

    method ParseSubshell() returns (r: Out<Command>)
      requires Ready() && HeadIs(State().rest, TLParen)
      modifies this, lexer, queue
      ensures Meets(ParseSpec.ParseSubshell(old(State())), r)
      decreases Rank(queue.cell), |State().rest|, 21
    {
      hide Lex;
      hide ParseSpec.ParseScript;
      hide ParseSpec.SkipNewlines;
      Take();
      var _ :- SkipNewlines();
      var body :- ParseScript();
      var t :- PeekToken();
      if t.kind.TRParen? {
        Take();
        return Done(Subshell(body));
      }
      return Stop(Syntax(if t.kind.TEof? then UnclosedSubshell else ExpectedRParen));
    }

    method ParseGroup() returns (r: Out<Command>)
      requires Ready() && HeadIs(State().rest, TLBrace)
      modifies this, lexer, queue
      ensures Meets(ParseSpec.ParseGroup(old(State())), r)
      decreases Rank(queue.cell), |State().rest|, 21
    {
      hide Lex;
      hide ParseSpec.ParseScript;
      hide SkipSeparator;
      hide ParseSpec.SkipNewlines;
      Take();
      var _ :- SkipNewlines();
      var body :- ParseScript();
      var _ :- SkipListSeparator();
      var _ :- SkipNewlines();
      var t :- PeekToken();
      if t.kind.TRBrace? {
        Take();
        return Done(Group(body));
      }
      return Stop(Syntax(if t.kind.TEof? then UnclosedGroup else ExpectedRBrace));
    }

    method ParseSimpleCommand() returns (r: Out<SimpleCommand>)
      requires Ready()
      modifies this, lexer, queue
      ensures Meets(SimpleLoop(old(State()), EmptySimple), r)
      decreases Rank(queue.cell), |State().rest|, 20
    {
      hide Lex;
      hide ParseSpec.ParseRedirect;
      hide ParseSpec.ParseAssignment;
      hide FunctionLookahead;
      hide ParseSpec.ParseWord;
      hide SplitAssignment;
      ghost var start := State();
      var sc := EmptySimple;
      while true
        invariant Ready() && Kept(start, State())
        invariant SimpleLoop(start, EmptySimple) == SimpleLoop(State(), sc)
        decreases |State().rest|
      {
        var t :- PeekToken();
        if IsStop(t.kind) { return Done(sc); }
        if t.kind.TRedirect? || t.kind.THereDoc? {
          var redirect :- ParseRedirect();
          sc := sc.(redirects := sc.redirects + [redirect]);
        } else if StartsWord(t.kind) {
          if sc.name.None? && t.kind.TWord? && SplitAssignment(t.kind.text).Some? {
            var a :- ParseAssignment();
            sc := sc.(assignments := sc.assignments + [a]);
          } else {
            var _ :- LookForFunction(sc.name.None?);
            var w :- ParseWord();
            sc := if sc.name.None? then sc.(name := Some(w)) else sc.(args := sc.args + [w]);
          }
        } else {
          return Stop(Syntax(UnexpectedToken(t.kind)));
        }
      }
    }

    method ParseAssignment() returns (r: Out<Assignment>)
      requires Ready() && Lex(State().rest, false).Tok? && Lex(State().rest, false).kind.TWord?
      requires SplitAssignment(Lex(State().rest, false).kind.text).Some?
      modifies this, lexer, queue
      ensures Meets(ParseSpec.ParseAssignment(old(State())), r)
      decreases Rank(queue.cell), |State().rest|, 19
    {
      hide Lex;
      hide WordOf;
      hide SplitAssignment;
      var t := NextToken();
      var (name, text) := SplitAssignment(t.value.kind.text).value;
      var w :- ReadWord(text, queue);
      return Done(Assign(name, w));
    }

    /** Reads one token past the command name and puts both back. */
    method LookForFunction(first: bool) returns (r: Out<()>)
      requires Ready() && Lex(State().rest, false).Tok?
      modifies this`peeked, this`cursor, lexer
      ensures Meets(FunctionLookahead(old(State()), first), r)
    {
      hide Lex;
      var t := PeekToken();
      if first && t.value.kind.TWord? && IsPlainName(t.value.kind.text) {
        ghost var start := cursor;
        var savedPeeked := peeked;
        var savedPos := lexer.pos;
        Take();
        var after :- PeekToken();
        if after.kind.TLParen? { return Stop(Syntax(UnsupportedFunction)); }
        peeked := savedPeeked;
        lexer.pos := savedPos;
        cursor := start;
      }
      return Done(());
    }

    // -------------------------------------------------------------- words and redirections

    method ParseWord() returns (r: Out<Word>)
      requires Ready()
      modifies this, lexer, queue
      ensures Meets(ParseSpec.ParseWord(old(State())), r)
      decreases Rank(queue.cell), |State().rest|, 8
    {
      hide Lex;
      hide WordOf;
      hide ParseSpec.ParseDoubleQuoted;
      var t :- PeekToken();
      if t.kind.TSingleQuote? {
        Take();
        return Done(SingleQuoted(t.kind.text));
      } else if t.kind.TDoubleQuoteOpen? {
        r := ParseDoubleQuoted();
      } else if t.kind.TWord? {
        Take();
        var w :- ReadWord(t.kind.text, queue);
        return Done(Simplify(if w.Concat? then w.parts else [w]));
      } else {
        return Done(Literal(""));
      }
    }

    /** The next fragment inside double quotes. */
    method NextFragment() returns (r: Out<TokenKind>)
      requires Valid() && inDq && peeked.None?
      modifies this`peeked, this`cursor, lexer
      ensures var n := NextDq(old(State()));
              if n.Good? then r == Done(n.value) && Valid() && peeked.None? && State() == n.st
              else r == Stop(n.why) && queue.cell == n.queue
    {
      hide Lex;
      var t :- PeekToken();
      var _ := NextToken();
      return Done(t.kind);
    }

    method ParseDoubleQuoted() returns (r: Out<Word>)
      requires Ready() && HeadIs(State().rest, TDoubleQuoteOpen)
      modifies this, lexer, queue
      ensures Meets(ParseSpec.ParseDoubleQuoted(old(State())), r)
      decreases Rank(queue.cell), |State().rest|, 7
    {
      hide Lex;
      hide DqWordParts;
      hide DqLoop;
      hide NextDq;
      ghost var start := State();
      Take();
      inDq := true;
      ghost var s1 := State();
      var parts: seq<DQPart> := [];
      NoPrefix(DqLoop(s1));
      while true
        invariant Valid() && inDq && peeked.None? && Moved(start, State())
        invariant DqLoop(s1) == Prefixed(parts, DqLoop(State()))
        decreases |State().rest|
      {
        DqLoopStep(State());
        var k :- NextFragment();
        if k.TDoubleQuoteClose? {
          assert parts + [] == parts;
          break;
        } else if k.TDQText? {
          PrefixedTwice(parts, [DQLiteral(k.text)], DqLoop(State()));
          parts := parts + [DQLiteral(k.text)];
        } else if k.TWord? {
          var more :- ReadDqParts(k.text, queue);
          PrefixedTwice(parts, more, DqLoop(State()));
          parts := parts + more;
        } else {
          return Stop(Syntax(UnexpectedToken(k)));
        }
      }
      inDq := false;
      return Done(DoubleQuoted(parts));
    }

    method ParseRedirect() returns (r: Out<Redirect>)
      requires Ready() && Lex(State().rest, false).Tok?
      requires Lex(State().rest, false).kind.TRedirect? || Lex(State().rest, false).kind.THereDoc?
      modifies this, lexer, queue
      ensures Meets(ParseSpec.ParseRedirect(old(State())), r)
      decreases Rank(queue.cell), |State().rest|, 10
    {
      hide Lex;
      hide ParseSpec.ParseWord;
      hide ParseSpec.ParseDupRedirect;
      var t := NextToken();
      match t.value.kind {
        case THereDoc(fd, delimiter, quoted, stripTabs) =>
          pending := pending + [Pending(delimiter, quoted, stripTabs)];
          var hd := Heredoc(delimiter, quoted, stripTabs, if quoted then LiteralBody("") else PartsBody([]));
          return Done(Redirect(if fd.Some? then fd else Some(0), Read, ToHeredoc(hd)));
        case TRedirect(fd0, op) =>
          var fd := Some(if fd0.Some? then fd0.value else DefaultFd(op));
          if op.GreaterAmp? {
            r := ParseDupRedirect(fd, Write);
          } else if op.LessAmp? {
            r := ParseDupRedirect(fd, Read);
          } else {
            var w :- ParseWord();
            return Done(Redirect(fd, KindOf(op), ToWord(w)));
          }
      }
    }

    method ParseDupRedirect(fd: Option<nat>, kind: RedirectKind) returns (r: Out<Redirect>)
      requires Ready()
      modifies this, lexer, queue
      ensures Meets(ParseSpec.ParseDupRedirect(old(State()), fd, kind), r)
      decreases Rank(queue.cell), |State().rest|, 9
    {
      hide Lex;
      hide ParseSpec.ParseWord;
      hide ParseU32;
      var t :- PeekToken();
      if t.kind.TWord? && t.kind.text == "-" {
        Take();
        return Done(Redirect(fd, kind, CloseFd));
      }
      if t.kind.TWord? && ParseU32(t.kind.text).Some? {
        Take();
        return Done(Redirect(fd, kind, ToFd(ParseU32(t.kind.text).value)));
      }
      var w :- ParseWord();
      return Done(Redirect(fd, kind, ToWord(w)));
    }
  }

  // ---------------------------------------------------------------- free functions

  /** Puts values already read in front of a result. */
  ghost function Prefixed<T(!new), S(!new)>(xs: seq<T>, r: Res<seq<T>, S>): Res<seq<T>, S> {
    match r
    case Good(v, st) => Good(xs + v, st)
    case Bad(w, c) => Bad(w, c)
  }

  lemma NoPrefix<T(!new), S(!new)>(r: Res<seq<T>, S>)
    ensures Prefixed([], r) == r
  {
    if r.Good? { assert [] + r.value == r.value; }
  }

  lemma PrefixedTwice<T(!new), S(!new)>(xs: seq<T>, ys: seq<T>, r: Res<seq<T>, S>)
    ensures Prefixed(xs, Prefixed(ys, r)) == Prefixed(xs + ys, r)
  {
    if r.Good? { assert xs + (ys + r.value) == xs + ys + r.value; }
  }

  lemma PendingLast<T(!new)>(parts: seq<T>, pend: seq<T>)
    ensures parts + pend == if pend == [] then parts else parts + pend
  {
  }

  lemma DqLoopStep(ps: PS)
    ensures var n, r := NextDq(ps), DqLoop(ps);
            if n.Bad? then r == Bad(n.why, n.queue)
            else if n.value.TDoubleQuoteClose? then r == Good([], n.st)
            else if n.value.TDQText? then r == Prefixed([DQLiteral(n.value.text)], DqLoop(n.st))
            else if n.value.TWord? then
              var parts := DqWordParts(n.value.text, "", n.st.cell);
              r == if parts.Bad? then Bad(parts.why, parts.queue)
                   else Prefixed(parts.value, DqLoop(n.st.(cell := parts.st)))
            else r == Bad(Syntax(UnexpectedToken(n.value)), ps.cell)
  {
    hide NextDq;
    hide DqWordParts;
  }

  method ParseText(src: string, queue: HeredocQueue) returns (r: Out<seq<Command>>)
    modifies queue
    ensures Yields(Parse(src, old(queue.cell)), r, queue.cell)
    decreases Rank(queue.cell), |src|, 30
  {
    var p := new Parser(src, queue);
    var script :- p.ParseScript();
    match queue.cell {
      case Borrowed => return Stop(Aborted);
      case Free(items) =>
        queue.cell := Borrowed;
        var filled := FillScript(script, items);
        queue.cell := Free([]);
        match filled {
          case Good(cmds, _) => return Done(cmds);
          case Bad(w, _) => return Stop(w);
        }
    }
  }

  method ReadWord(s: string, queue: HeredocQueue) returns (r: Out<Word>)
    modifies queue
    ensures Yields(WordOf(s, old(queue.cell)), r, queue.cell)
    decreases Rank(queue.cell), |s|, 5
  {
    var parts :- ReadParts(s, queue);
    return Done(Simplify(parts));
  }

  /** One round of the loop below. */
  lemma {:induction false} WordPartsStep(s: string, literal: string, cell: Cell)
    ensures var r := WordParts(s, literal, cell);
            if s == "" then r == Good(Pending0(literal), cell)
            else if s[0] == '\\' then
              if |s| == 1 then r == Good(Pending0(literal), cell)
              else r == WordParts(s[2..], if s[1] == '\n' then literal else literal + [s[1]], cell)
            else if s[0] == '$' || s[0] == '`' then
              var d := if s[0] == '$' then ParseDollar(s, cell) else ParseBacktick(s, cell);
              r == if d.Bad? then Bad(d.why, d.queue)
                   else Prefixed(Pending0(literal) + [d.value.word], WordParts(s[d.value.len..], "", d.st))
            else r == WordParts(s[1..], literal + [s[0]], cell)
  {
    hide ParseDollar;
    hide ParseBacktick;
  }

  method ReadParts(s: string, queue: HeredocQueue) returns (r: Out<seq<Word>>)
    modifies queue
    ensures Yields(WordParts(s, "", old(queue.cell)), r, queue.cell)
    decreases Rank(queue.cell), |s|, 4
  {
    hide WordParts;
    hide ParseDollar;
    hide ParseBacktick;
    ghost var cell := queue.cell;
    var parts: seq<Word> := [];
    var literal := "";
    var i := 0;
    assert s[0..] == s;
    NoPrefix(WordParts(s, "", cell));
    while i < |s|
      invariant 0 <= i <= |s| && SameHands(cell, queue.cell)
      invariant WordParts(s, "", cell) == Prefixed(parts, WordParts(s[i..], literal, queue.cell))
    {
      WordPartsStep(s[i..], literal, queue.cell);
      Tail(s, i, 1);
      if s[i] == '\\' {
        if i + 1 < |s| {
          Tail(s, i, 2);
          if s[i + 1] != '\n' { literal := literal + [s[i + 1]]; }
          i := i + 2;
        } else {
          i := i + 1;
          WordPartsStep("", literal, queue.cell);
        }
      } else if s[i] == '$' || s[i] == '`' {
        ghost var before, pend := parts, Pending0(literal);
        if literal != "" {
          parts := parts + [Literal(literal)];
          literal := "";
        }
        assert parts == before + pend;
        var e;
        if s[i] == '$' {
          e :- ReadDollar(s[i..], queue);
        } else {
          e :- ReadBacktick(s[i..], queue);
        }
        Tail(s, i, e.len);
        PrefixedTwice(before, pend + [e.word], WordParts(s[i + e.len..], "", queue.cell));
        assert parts + [e.word] == before + (pend + [e.word]);
        parts := parts + [e.word];
        i := i + e.len;
      } else {
        literal := literal + [s[i]];
        i := i + 1;
      }
    }
    WordPartsStep(s[i..], literal, queue.cell);
    assert s[i..] == "";
    PendingLast(parts, Pending0(literal));
    if literal != "" { parts := parts + [Literal(literal)]; }
    return Done(parts);
  }

  /** One round of the loop below. */
  lemma {:induction false} DqWordPartsStep(s: string, literal: string, cell: Cell)
    ensures var r := DqWordParts(s, literal, cell);
            if s == "" then r == Good(PendingDq(literal), cell)
            else if s[0] == '$' || s[0] == '`' then
              var d := if s[0] == '$' then ParseDollar(s, cell) else ParseBacktick(s, cell);
              r == if d.Bad? then Bad(d.why, d.queue)
                   else Prefixed(PendingDq(literal) + [ToDqPart(d.value.word)], DqWordParts(s[d.value.len..], "", d.st))
            else r == DqWordParts(s[1..], literal + [s[0]], cell)
  {
    hide ParseDollar;
    hide ParseBacktick;
  }

  method ReadDqParts(s: string, queue: HeredocQueue) returns (r: Out<seq<DQPart>>)
    modifies queue
    ensures Yields(DqWordParts(s, "", old(queue.cell)), r, queue.cell)
    decreases Rank(queue.cell), |s|, 4
  {
    hide DqWordParts;
    hide ParseDollar;
    hide ParseBacktick;
    ghost var cell := queue.cell;
    var parts: seq<DQPart> := [];
    var literal := "";
    var i := 0;
    assert s[0..] == s;
    NoPrefix(DqWordParts(s, "", cell));
    while i < |s|
      invariant 0 <= i <= |s| && SameHands(cell, queue.cell)
      invariant DqWordParts(s, "", cell) == Prefixed(parts, DqWordParts(s[i..], literal, queue.cell))
    {
      DqWordPartsStep(s[i..], literal, queue.cell);
      Tail(s, i, 1);
      if s[i] == '$' || s[i] == '`' {
        ghost var before, pend := parts, PendingDq(literal);
        if literal != "" {
          parts := parts + [DQLiteral(literal)];
          literal := "";
        }
        assert parts == before + pend;
        var e;
        if s[i] == '$' {
          e :- ReadDollar(s[i..], queue);
        } else {
          e :- ReadBacktick(s[i..], queue);
        }
        Tail(s, i, e.len);
        PrefixedTwice(before, pend + [ToDqPart(e.word)], DqWordParts(s[i + e.len..], "", queue.cell));
        assert parts + [ToDqPart(e.word)] == before + (pend + [ToDqPart(e.word)]);
        parts := parts + [ToDqPart(e.word)];
        i := i + e.len;
      } else {
        literal := literal + [s[i]];
        i := i + 1;
      }
    }
    DqWordPartsStep(s[i..], literal, queue.cell);
    assert s[i..] == "";
    PendingLast(parts, PendingDq(literal));
    if literal != "" { parts := parts + [DQLiteral(literal)]; }
    return Done(parts);
  }

  method ExtractBalanced(s: string, close: string) returns (r: Option<(nat, nat)>)
    requires close == ")" || close == "))"
    ensures r == Extract(s, 1, close)
  {
    hide StartsWith;
    hide Extract;
    var depth := 1;
    var i := 0;
    assert s[0..] == s;
    while i < |s|
      invariant 0 <= i <= |s| && depth > 0
      invariant Extract(s, 1, close) == Further(i, Extract(s[i..], depth, close))
    {
      Tail(s, i, 1);
      ExtractStep(s[i..], depth, close);
      if depth == 1 && StartsWith(s[i..], close) { return Some((i, i + |close|)); }
      if s[i] == '(' {
        depth := depth + 1;
      } else if s[i] == ')' {
        depth := depth - 1;
        if depth == 0 { return Some((i, i + 1)); }
      }
      i := i + 1;
    }
    ExtractStep(s[i..], depth, close);
    return None;
  }

  lemma {:induction false} ExtractStep(s: string, depth: nat, close: string)
    requires (close == ")" || close == "))") && depth > 0
    ensures Extract(s, depth, close) ==
            if s == "" then None
            else if depth == 1 && StartsWith(s, close) then Some((0, |close|))
            else if s[0] == ')' && depth == 1 then Some((0, 1))
            else Further(1, Extract(s[1..], if s[0] == '(' then depth + 1 else if s[0] == ')' then depth - 1 else depth, close))
  {
  }

  method ReadDollar(s: string, queue: HeredocQueue) returns (r: Out<Expansion>)
    requires s != ""
    modifies queue
    ensures Yields(ParseDollar(s, old(queue.cell)), r, queue.cell)
    decreases Rank(queue.cell), |s|, 3
  {
    if |s| == 1 { return Done(Expansion(Literal("$"), 1)); }
    if s[1] == '(' {
      if Parenthesis(s, 2) {
        var found := ExtractBalanced(s[3..], "))");
        if found.None? { return Stop(Syntax(UnmatchedClose("))"))); }
        return Done(Expansion(ArithSubst(s[3..][..found.value.0]), 3 + found.value.1));
      }
      var found := ExtractBalanced(s[2..], ")");
      if found.None? { return Stop(Syntax(UnmatchedClose(")"))); }
      var script :- ParseText(Trim(s[2..][..found.value.0]), queue);
      return Done(Expansion(CommandSubst(script), 2 + found.value.1));
    }
    if s[1] == '{' {
      var d :- ReadBraceVar(s[2..], queue);
      return Done(Expansion(Variable(d.0), 2 + d.1 + 1));
    }
    if IsDigit(s[1]) {
      return Done(Expansion(Variable(Special(if s[1] == '0' then Zero else Positional(DigitValue(s[1])))), 2));
    }
    if IsSpecialVarChar(s[1]) { return Done(Expansion(Variable(Special(SpecialOf(s[1]))), 2)); }
    var n := NameRun(s[1..]);
    if n == 0 { return Done(Expansion(Literal("$"), 1)); }
    return Done(Expansion(Variable(Named(s[1..][..n])), 1 + n));
  }

  method ReadBraceVar(s: string, queue: HeredocQueue) returns (r: Out<(VarExpr, nat)>)
    modifies queue
    ensures Yields(ParseBraceVar(s, old(queue.cell)), r, queue.cell)
    decreases Rank(queue.cell), |s|, 2
  {
    var close := Before(s, '}');
    if close == |s| { return Stop(Syntax(UnclosedBraceVariable)); }
    var inner := s[..close];
    if inner == "" { return Stop(Syntax(EmptyBraceVariable)); }
    if inner[0] == '#' && IsValidName(inner[1..]) { return Done((Length(inner[1..]), close)); }
    var op := FindVarOperator(inner, 0);
    if op.None? { return Done((Named(inner), close)); }
    var at := if inner[op.value] == ':' then op.value + 1 else op.value;
    var w :- ReadWord(inner[at + 1..], queue);
    return Done((VarOf(inner[at], inner[..op.value], w), close));
  }

  method ReadBacktick(s: string, queue: HeredocQueue) returns (r: Out<Expansion>)
    requires s != ""
    modifies queue
    ensures Yields(ParseBacktick(s, old(queue.cell)), r, queue.cell)
    decreases Rank(queue.cell), |s|, 3
  {
    var n := Before(s[1..], '`');
    if n == |s| - 1 { return Stop(Syntax(UnterminatedBacktick)); }
    var script :- ParseText(Trim(s[1..][..n]), queue);
    return Done(Expansion(CommandSubst(script), n + 2));
  }
}
