/** A script read token by token, without its grammar: which heredocs are announced, where their bodies
    are collected, where nested scripts stand, and at which bracket reading stops. The parser, whatever
    tree it builds, does exactly this to the heredocs and stops exactly there. */
module Reading {
  import opened Ast
  import opened LexSpec
  import opened ParseSpec
  import opened WordEffects
  import opened Nesting

  // ---------------------------------------------------------------- reading a text

  /** In the order of the text: a heredoc operator, a word with a command substitution, and a body
      that starts at a place in the text. */
  datatype Event = Announced(doc: Pending) | Nested | Collected(at: nat, doc: Pending)

  /** What happened, where reading stopped, and which heredocs still wait for their bodies. */
  datatype Pass = Pass(trace: seq<Event>, stop: nat, pend: seq<Pending>)

  function Then(tr: seq<Event>, r: Pass): Pass {
    r.(trace := tr + r.trace)
  }

  /** The bodies of `pend`, one behind the other from `at` on. */
  function Taken(s: string, at: nat, pend: seq<Pending>): seq<Event>
    requires at <= |s| && AllBodies(s[at..], pend).Bodies?
    decreases |pend|
  {
    if pend == [] then []
    else
      var len := OneBody(s[at..], pend[0]).len;
      assert s[at..][len..] == s[at + len..];
      [Collected(at, pend[0])] + Taken(s, at + len, pend[1..])
  }

  predicate Opens(k: TokenKind) {
    k.TLParen? || k.TLBrace?
  }

  predicate Closes(k: TokenKind) {
    k.TRParen? || k.TRBrace?
  }

  function WordEvents(k: TokenKind, dq: bool): seq<Event> {
    if k.TWord? && Nests(k.text, dq) then [Nested] else []
  }

  /** A place in a text: outside or inside double quotes, with `depth` brackets open and some heredocs
      waiting for their bodies. */
  datatype Spot = Spot(i: nat, dq: bool, depth: nat, pend: seq<Pending>)

  /** The events of the next token and the place behind it; nothing at the end of the text, at a
      bracket that closes nothing, and where a token or a body does not end. */
  function Token(s: string, p: Spot): (r: Option<(seq<Event>, Spot)>)
    requires p.i <= |s|
    ensures r.Some? ==> p.i < r.value.1.i <= |s|
  {
    match Lex(s[p.i..], p.dq)
    case LexErr(_) => None
    case Tok(k, _, end) =>
      var j := p.i + end;
      if k.TEof? then None
      else if p.dq then Some((WordEvents(k, true), p.(i := j, dq := !k.TDoubleQuoteClose?)))
      else if k.TNewline? then AfterNewline(s, p.(i := j))
      else if k.THereDoc? then
        var doc := Pending(k.delimiter, k.quoted, k.stripTabs);
        Some(([Announced(doc)], p.(i := j, pend := p.pend + [doc])))
      else if Closes(k) && p.depth == 0 then None
      else
        Some((WordEvents(k, false),
              p.(i := j, dq := k.TDoubleQuoteOpen?,
                 depth := if Opens(k) then p.depth + 1 else if Closes(k) then p.depth - 1 else p.depth)))
  }

  /** Behind a newline the bodies of this line's heredocs stand. */
  function AfterNewline(s: string, p: Spot): (r: Option<(seq<Event>, Spot)>)
    requires p.i <= |s|
    ensures r.Some? ==> p.i <= r.value.1.i <= |s|
  {
    match AllBodies(s[p.i..], p.pend)
    case BadBodies(_) => None
    case Bodies(_, len) => Some((Taken(s, p.i, p.pend), p.(i := p.i + len, pend := [])))
  }

  /** Reads on as far as there are tokens. */
  function Walk(s: string, p: Spot): Pass
    requires p.i <= |s|
    decreases |s| - p.i
  {
    match Token(s, p)
    case None => Pass([], p.i, p.pend)
    case Some((tr, q)) => Then(tr, Walk(s, q))
  }

  // ---------------------------------------------------------------- the queue along a trace

  /** The text of the body that starts at a place. */
  function BodyAt(s: string, at: nat, doc: Pending): string {
    if at <= |s| && OneBody(s[at..], doc).Bodies? then OneBody(s[at..], doc).bodies[0] else ""
  }

  function ItemAt(s: string, e: Event): QueueItem
    requires e.Collected?
  {
    QueueItem(e.doc.quoted, BodyAt(s, e.at, e.doc))
  }

  /** A nested script empties the queue, a collected body goes behind the others. */
  function QueueAlong(s: string, items: seq<QueueItem>, tr: seq<Event>): seq<QueueItem>
    decreases |tr|
  {
    if tr == [] then items
    else QueueAlong(s, if tr[0].Nested? then [] else if tr[0].Collected? then items + [ItemAt(s, tr[0])] else items, tr[1..])
  }

  // ---------------------------------------------------------------- what a tree holds

  /** The heredocs of a tree in the order of its redirections, and whether there is a command
      substitution in one of its words. */
  datatype Held = Held(docs: seq<Heredoc>, subst: bool)

  const Nothing: Held := Held([], false)

  function Join(a: Held, b: Held): Held {
    Held(a.docs + b.docs, a.subst || b.subst)
  }

  /** A heredoc before its body is filled in. */
  function Unfilled(p: Pending): Heredoc {
    Heredoc(p.delimiter, p.quoted, p.stripTabs, if p.quoted then LiteralBody("") else PartsBody([]))
  }

  function HeldInEvent(e: Event): Held {
    match e
    case Announced(doc) => Held([Unfilled(doc)], false)
    case Nested => Held([], true)
    case Collected(_, _) => Nothing
  }

  /** What a tree must hold that was built from a text with these events. */
  function Heard(tr: seq<Event>): Held
    decreases |tr|
  {
    if tr == [] then Nothing else Join(HeldInEvent(tr[0]), Heard(tr[1..]))
  }

  function HeldInRedirect(r: Redirect): Held {
    match r.target
    case ToHeredoc(hd) => Held([hd], false)
    case ToWord(w) => Held([], HasSubst(w))
    case _ => Nothing
  }

  function HeldInRedirects(rs: seq<Redirect>): Held {
    if rs == [] then Nothing else Join(HeldInRedirect(rs[0]), HeldInRedirects(rs[1..]))
  }

  predicate AnyAssignment(as_: seq<Assignment>) {
    as_ != [] && (HasSubst(as_[0].value) || AnyAssignment(as_[1..]))
  }

  function HeldInSimple(sc: SimpleCommand): Held {
    Join(Held([], AnyAssignment(sc.assignments) || (sc.name.Some? && HasSubst(sc.name.value)) || AnyWord(sc.args)),
         HeldInRedirects(sc.redirects))
  }

  function HeldInStages(scs: seq<SimpleCommand>): Held
    decreases scs
  {
    if scs == [] then Nothing else Join(HeldInSimple(scs[0]), HeldInStages(scs[1..]))
  }

  function HeldInCommand(c: Command): Held
    decreases c
  {
    match c
    case Simple(sc) => HeldInSimple(sc)
    case Pipe(p) => HeldInStages(p.commands)
    case And(l, r) => Join(HeldInCommand(l), HeldInCommand(r))
    case Or(l, r) => Join(HeldInCommand(l), HeldInCommand(r))
    case Sequence(cs) => HeldIn(cs)
    case Background(b) => HeldInCommand(b)
    case Subshell(cs) => HeldIn(cs)
    case Group(cs) => HeldIn(cs)
  }

  function HeldIn(cmds: seq<Command>): Held
    decreases cmds
  {
    if cmds == [] then Nothing else Join(HeldInCommand(cmds[0]), HeldIn(cmds[1..]))
  }

  lemma JoinLaws(a: Held, b: Held, c: Held)
    ensures Join(a, Join(b, c)) == Join(Join(a, b), c) && Join(Nothing, a) == a && Join(a, Nothing) == a
  {
    assert a.docs + (b.docs + c.docs) == a.docs + b.docs + c.docs;
    assert Nothing.docs + a.docs == a.docs && a.docs + Nothing.docs == a.docs;
  }

  lemma {:induction false} HeardConcat(a: seq<Event>, b: seq<Event>)
    ensures Heard(a + b) == Join(Heard(a), Heard(b))
    decreases |a|
  {
    if a == [] {
      assert a + b == b;
      JoinLaws(Heard(b), Nothing, Nothing);
    } else {
      assert (a + b)[0] == a[0] && (a + b)[1..] == a[1..] + b;
      HeardConcat(a[1..], b);
      JoinLaws(HeldInEvent(a[0]), Heard(a[1..]), Heard(b));
    }
  }

  lemma HeardOne(e: Event)
    ensures Heard([e]) == HeldInEvent(e)
  {
    assert [e][1..] == [] && Heard([]) == Nothing;
    JoinLaws(HeldInEvent(e), Nothing, Nothing);
  }

  lemma {:induction false} QueueAlongConcat(s: string, items: seq<QueueItem>, a: seq<Event>, b: seq<Event>)
    ensures QueueAlong(s, items, a + b) == QueueAlong(s, QueueAlong(s, items, a), b)
    decreases |a|
  {
    hide ItemAt;
    if a == [] {
      assert a + b == b;
    } else {
      assert (a + b)[0] == a[0] && (a + b)[1..] == a[1..] + b;
      QueueAlongConcat(s, if a[0].Nested? then [] else if a[0].Collected? then items + [ItemAt(s, a[0])] else items, a[1..], b);
    }
  }

  lemma QueueAlongOne(s: string, items: seq<QueueItem>, e: Event)
    ensures QueueAlong(s, items, [e]) ==
            if e.Nested? then [] else if e.Collected? then items + [ItemAt(s, e)] else items
  {
    hide ItemAt;
    var one := if e.Nested? then [] else if e.Collected? then items + [ItemAt(s, e)] else items;
    assert [e][1..] == [] && QueueAlong(s, one, []) == one;
  }

  // ---------------------------------------------------------------- one piece of a parse

  predicate Inside(s: string, ps: PS) {
    ps.cell.Free? && Suffix(ps.rest, s)
  }

  function SpotOf(s: string, ps: PS, dq: bool, depth: nat): Spot
    requires Inside(s, ps)
  {
    Spot(|s| - |ps.rest|, dq, depth, ps.pend)
  }

  /** Reading on from where the parser is. */
  function WalkFrom(s: string, ps: PS, dq: bool, depth: nat): Pass
    requires Inside(s, ps)
  {
    Walk(s, SpotOf(s, ps, dq, depth))
  }

  /** Parsing from `ps` to `st` is reading through these events, with `d` brackets open before and
      `e` afterwards. */
  predicate Passes(s: string, ps: PS, dq: bool, d: nat, tr: seq<Event>, st: PS, dq': bool, e: nat) {
    && Inside(s, ps) && Inside(s, st)
    && WalkFrom(s, ps, dq, d) == Then(tr, WalkFrom(s, st, dq', e))
    && st.cell.items == QueueAlong(s, ps.cell.items, tr)
  }

  /** The same from outside quotes to outside quotes and at one depth. */
  predicate Traced(s: string, d: nat, ps: PS, tr: seq<Event>, st: PS) {
    Passes(s, ps, false, d, tr, st, false, d)
  }

  lemma TokenWalks(s: string, p: Spot, tr: seq<Event>, q: Spot)
    requires p.i <= |s| && Token(s, p) == Some((tr, q))
    ensures Walk(s, p) == Then(tr, Walk(s, q))
  {
    hide Token;
  }

  lemma ThenThen(a: seq<Event>, b: seq<Event>, r: Pass)
    ensures Then(a, Then(b, r)) == Then(a + b, r) && Then([], r) == r
  {
    assert a + (b + r.trace) == a + b + r.trace && [] + r.trace == r.trace;
  }

  lemma PassesThen(s: string, a: PS, q0: bool, d0: nat, t: seq<Event>, b: PS, q1: bool, d1: nat, u: seq<Event>, c: PS, q2: bool, d2: nat)
    requires Passes(s, a, q0, d0, t, b, q1, d1) && Passes(s, b, q1, d1, u, c, q2, d2)
    ensures Passes(s, a, q0, d0, t + u, c, q2, d2) && Heard(t + u) == Join(Heard(t), Heard(u))
  {
    hide Walk;
    hide QueueAlong;
    hide Heard;
    ThenThen(t, u, WalkFrom(s, c, q2, d2));
    QueueAlongConcat(s, a.cell.items, t, u);
    HeardConcat(t, u);
  }

  lemma TracedThen(s: string, d: nat, a: PS, t: seq<Event>, b: PS, u: seq<Event>, c: PS)
    requires Traced(s, d, a, t, b) && Traced(s, d, b, u, c)
    ensures Traced(s, d, a, t + u, c) && Heard(t + u) == Join(Heard(t), Heard(u))
  {
    hide Passes;
    PassesThen(s, a, false, d, t, b, false, d, u, c, false, d);
  }

  lemma TracedNothing(s: string, d: nat, ps: PS)
    requires Inside(s, ps)
    ensures Traced(s, d, ps, [], ps) && Heard([]) == Nothing
  {
    hide Walk;
    ThenThen([], [], WalkFrom(s, ps, false, d));
  }

  lemma WordEventsEffect(s: string, items: seq<QueueItem>, k: TokenKind, dq: bool)
    ensures Heard(WordEvents(k, dq)) == Held([], k.TWord? && Nests(k.text, dq))
    ensures QueueAlong(s, items, WordEvents(k, dq)) == if k.TWord? && Nests(k.text, dq) then [] else items
  {
    hide Nests;
    HeardOne(Nested);
    QueueAlongOne(s, items, Nested);
    assert Heard([]) == Nothing && QueueAlong(s, items, []) == items;
  }

  predicate IsSimpleToken(k: TokenKind) {
    !k.TEof? && !k.TNewline? && !k.THereDoc? && !Opens(k) && !Closes(k)
  }

  /** A token that is neither a bracket, nor a newline, nor a heredoc operator; `items` is the queue
      afterwards. */
  lemma TokenPasses(s: string, d: nat, ps: PS, items: seq<QueueItem>)
    requires Inside(s, ps) && Lex(ps.rest, false).Tok? && IsSimpleToken(Lex(ps.rest, false).kind)
    requires items == QueueAlong(s, ps.cell.items, WordEvents(Lex(ps.rest, false).kind, false))
    ensures var k := Lex(ps.rest, false).kind;
            Passes(s, ps, false, d, WordEvents(k, false), After(ps).(cell := Free(items)), k.TDoubleQuoteOpen?, d)
  {
    hide Lex;
    hide QueueAlong;
    hide WordEvents;
    ReadOn(s, ps, false);
  }

  lemma ReadOn(s: string, ps: PS, dq: bool)
    requires Inside(s, ps) && Lex(ps.rest, dq).Tok?
    ensures var i := |s| - |ps.rest|; i <= |s| && s[i..] == ps.rest && Suffix(ps.rest[Lex(ps.rest, dq).end..], s) && |ps.rest[Lex(ps.rest, dq).end..]| == |s| - (i + Lex(ps.rest, dq).end)
  {
    hide Lex;
    DropIsSuffix(ps.rest, Lex(ps.rest, dq).end);
    SuffixTrans(ps.rest[Lex(ps.rest, dq).end..], ps.rest, s);
  }

  /** A token that says nothing, with the brackets that are open behind it. */
  lemma TokenTraced(s: string, d: nat, ps: PS)
    requires Inside(s, ps) && Lex(ps.rest, false).Tok?
    requires IsSimpleToken(Lex(ps.rest, false).kind) && !Lex(ps.rest, false).kind.TWord? && !Lex(ps.rest, false).kind.TDoubleQuoteOpen?
    ensures Traced(s, d, ps, [], After(ps))
  {
    hide Lex;
    hide Passes;
    var items := ps.cell.items;
    assert QueueAlong(s, items, []) == items;
    TokenPasses(s, d, ps, items);
    assert After(ps).(cell := Free(items)) == After(ps);
  }

  lemma OpenPasses(s: string, d: nat, ps: PS)
    requires Inside(s, ps) && Lex(ps.rest, false).Tok? && Opens(Lex(ps.rest, false).kind)
    ensures Passes(s, ps, false, d, [], After(ps), false, d + 1)
  {
    hide Lex;
    ReadOn(s, ps, false);
    assert QueueAlong(s, ps.cell.items, []) == ps.cell.items;
  }

  lemma ClosePasses(s: string, d: nat, ps: PS)
    requires Inside(s, ps) && Lex(ps.rest, false).Tok? && Closes(Lex(ps.rest, false).kind)
    ensures Passes(s, ps, false, d + 1, [], After(ps), false, d)
  {
    hide Lex;
    ReadOn(s, ps, false);
    assert QueueAlong(s, ps.cell.items, []) == ps.cell.items;
  }

  // ---------------------------------------------------------------- words

  lemma {:induction false} DqLoopPasses(s: string, d: nat, ps: PS) returns (tr: seq<Event>)
    requires Inside(s, ps) && DqLoop(ps).Good?
    ensures Passes(s, ps, true, d, tr, DqLoop(ps).st, false, d)
    ensures Heard(tr) == Held([], AnyPart(DqLoop(ps).value))
    decreases |ps.rest|
  {
    hide Lex;
    hide DqWordParts;
    hide PartHasSubst;
    hide Passes;
    hide WordEvents;
    var k, p1 := NextDq(ps).value, NextDq(ps).st;
    var parts := if k.TWord? then DqWordParts(k.text, "", p1.cell).value else [];
    var p2 := if k.TWord? then p1.(cell := DqWordParts(k.text, "", p1.cell).st) else p1;
    if k.TWord? {
      DqPartsEffect(k.text, "", p1.cell);
      DqPartsNestExactly(k.text, "", p1.cell);
    }
    WordEventsEffect(s, ps.cell.items, k, true);
    FragmentPasses(s, d, ps, p2.cell.items);
    tr := WordEvents(k, true);
    if !k.TDoubleQuoteClose? {
      var more := DqLoop(p2);
      assert Inside(s, p2) by { assert Passes(s, ps, true, d, tr, p2, true, d); PassesInside(s, ps, true, d, tr, p2, true, d); }
      var u := DqLoopPasses(s, d, p2);
      PassesThen(s, ps, true, d, tr, p2, true, d, u, more.st, false, d);
      tr := tr + u;
      if k.TDQText? { LiteralHasNone(k.text); AnyPartConcat([DQLiteral(k.text)], more.value); }
      else { AnyPartConcat(parts, more.value); }
    }
  }

  lemma PassesInside(s: string, ps: PS, dq: bool, d: nat, tr: seq<Event>, st: PS, dq': bool, e: nat)
    requires Passes(s, ps, dq, d, tr, st, dq', e)
    ensures Inside(s, ps) && Inside(s, st)
  {
    hide Walk;
    hide QueueAlong;
  }

  /** A token inside double quotes. */
  lemma FragmentPasses(s: string, d: nat, ps: PS, items: seq<QueueItem>)
    requires Inside(s, ps) && Lex(ps.rest, true).Tok?
    requires items == QueueAlong(s, ps.cell.items, WordEvents(Lex(ps.rest, true).kind, true))
    ensures var k, end := Lex(ps.rest, true).kind, Lex(ps.rest, true).end;
            Passes(s, ps, true, d, WordEvents(k, true), ps.(rest := ps.rest[end..], cell := Free(items)), !k.TDoubleQuoteClose?, d)
  {
    hide Lex;
    hide QueueAlong;
    hide WordEvents;
    ReadOn(s, ps, true);
  }

  /** A word token, read as a word or as a value behind `name=`. */
  lemma WordTokenTraced(s: string, d: nat, ps: PS, st: PS, subst: bool)
    requires Inside(s, ps) && Lex(ps.rest, false).Tok? && Lex(ps.rest, false).kind.TWord?
    requires subst <==> Nests(Lex(ps.rest, false).kind.text, false)
    requires st == After(ps).(cell := Free(if subst then [] else ps.cell.items))
    ensures Traced(s, d, ps, WordEvents(Lex(ps.rest, false).kind, false), st)
    ensures Heard(WordEvents(Lex(ps.rest, false).kind, false)) == Held([], subst)
  {
    hide Lex;
    hide Nests;
    hide Passes;
    hide QueueAlong;
    WordEventsEffect(s, ps.cell.items, Lex(ps.rest, false).kind, false);
    TokenPasses(s, d, ps, st.cell.items);
  }

  lemma WordTraced(s: string, d: nat, ps: PS) returns (tr: seq<Event>)
    requires Inside(s, ps) && ParseWord(ps).Good?
    ensures Traced(s, d, ps, tr, ParseWord(ps).st) && Heard(tr) == Held([], HasSubst(ParseWord(ps).value))
  {
    hide Lex;
    hide WordOf;
    hide DqLoop;
    hide Traced;
    hide HasSubst;
    var k, p1, r := Lex(ps.rest, false).kind, After(ps), ParseWord(ps);
    TracedNothing(s, d, ps);
    tr := [];
    if k.TSingleQuote? {
      TokenTraced(s, d, ps);
      NotNested(SingleQuoted(k.text));
    } else if k.TDoubleQuoteOpen? {
      tr := QuotedTraced(s, d, ps);
    } else if k.TWord? {
      WordEffect(k.text, p1.cell);
      WordNestsExactly(k.text, p1.cell);
      var w := WordOf(k.text, p1.cell).value;
      WordTokenTraced(s, d, ps, r.st, HasSubst(w));
      UnwrapHas(w);
      tr := WordEvents(k, false);
    } else {
      NotNested(Literal(""));
    }
  }

  lemma NotNested(w: Word)
    requires w.Literal? || w.SingleQuoted?
    ensures !HasSubst(w)
  {
  }

  lemma UnwrapHas(w: Word)
    ensures HasSubst(Simplify(if w.Concat? then w.parts else [w])) <==> HasSubst(w)
  {
    SimplifyHas(if w.Concat? then w.parts else [w]);
    OneWord(w);
  }

  lemma QuotedTraced(s: string, d: nat, ps: PS) returns (tr: seq<Event>)
    requires Inside(s, ps) && HeadIs(ps.rest, TDoubleQuoteOpen) && ParseDoubleQuoted(ps).Good?
    ensures Traced(s, d, ps, tr, ParseDoubleQuoted(ps).st)
    ensures Heard(tr) == Held([], HasSubst(ParseDoubleQuoted(ps).value))
  {
    hide Lex;
    hide DqLoop;
    hide Passes;
    var k, p1 := Lex(ps.rest, false).kind, After(ps);
    WordEventsEffect(s, ps.cell.items, k, false);
    TokenPasses(s, d, ps, ps.cell.items);
    assert p1.(cell := Free(ps.cell.items)) == p1;
    PassesInside(s, ps, false, d, WordEvents(k, false), p1, true, d);
    var u := DqLoopPasses(s, d, p1);
    PassesThen(s, ps, false, d, WordEvents(k, false), p1, true, d, u, DqLoop(p1).st, false, d);
    tr := WordEvents(k, false) + u;
  }

  // ---------------------------------------------------------------- redirections

  lemma DupTraced(s: string, d: nat, ps: PS, fd: Option<nat>, kind: RedirectKind) returns (tr: seq<Event>)
    requires Inside(s, ps) && ParseDupRedirect(ps, fd, kind).Good?
    ensures var r := ParseDupRedirect(ps, fd, kind); Traced(s, d, ps, tr, r.st) && Heard(tr) == HeldInRedirect(r.value)
  {
    hide Lex;
    hide ParseWord;
    hide HasSubst;
    hide ParseU32;
    hide Traced;
    var k := Lex(ps.rest, false).kind;
    if k.TWord? && (k.text == "-" || ParseU32(k.text).Some?) {
      NumbersNestNothing(k.text);
      var st := After(ps);
      assert st.(cell := Free(ps.cell.items)) == st;
      WordTokenTraced(s, d, ps, st, false);
      tr := WordEvents(k, false);
    } else {
      tr := WordTraced(s, d, ps);
    }
  }

  /** A heredoc operator announces its heredoc. */
  lemma HeredocTraced(s: string, d: nat, ps: PS)
    requires Inside(s, ps) && Lex(ps.rest, false).Tok? && Lex(ps.rest, false).kind.THereDoc?
    ensures var k := Lex(ps.rest, false).kind;
            var r, doc := ParseRedirect(ps), Pending(k.delimiter, k.quoted, k.stripTabs);
            Traced(s, d, ps, [Announced(doc)], r.st) && Heard([Announced(doc)]) == HeldInRedirect(r.value)
  {
    hide Lex;
    var k := Lex(ps.rest, false).kind;
    var doc := Pending(k.delimiter, k.quoted, k.stripTabs);
    ReadOn(s, ps, false);
    QueueAlongOne(s, ps.cell.items, Announced(doc));
    HeardOne(Announced(doc));
  }

  lemma RedirectTraced(s: string, d: nat, ps: PS) returns (tr: seq<Event>)
    requires Inside(s, ps)
    requires Lex(ps.rest, false).Tok? && (Lex(ps.rest, false).kind.TRedirect? || Lex(ps.rest, false).kind.THereDoc?)
    requires ParseRedirect(ps).Good?
    ensures Traced(s, d, ps, tr, ParseRedirect(ps).st) && Heard(tr) == HeldInRedirect(ParseRedirect(ps).value)
  {
    hide Lex;
    hide ParseWord;
    hide ParseDupRedirect;
    hide HasSubst;
    hide Passes;
    var k, p1 := Lex(ps.rest, false).kind, After(ps);
    if k.THereDoc? {
      HeredocTraced(s, d, ps);
      tr := [Announced(Pending(k.delimiter, k.quoted, k.stripTabs))];
    } else {
      var fd := Some(if k.fd.Some? then k.fd.value else DefaultFd(k.op));
      TokenTraced(s, d, ps);
      PassesInside(s, ps, false, d, [], p1, false, d);
      if k.op.GreaterAmp? {
        tr := DupTraced(s, d, p1, fd, Write);
      } else if k.op.LessAmp? {
        tr := DupTraced(s, d, p1, fd, Read);
      } else {
        tr := WordTraced(s, d, p1);
      }
      TracedThen(s, d, ps, [], p1, tr, ParseRedirect(ps).st);
      assert [] + tr == tr;
    }
  }

  // ---------------------------------------------------------------- simple commands

  lemma {:induction false} AssignmentsConcat(a: seq<Assignment>, b: seq<Assignment>)
    ensures AnyAssignment(a + b) <==> AnyAssignment(a) || AnyAssignment(b)
  {
    hide HasSubst;
    if a == [] {
      assert a + b == b;
    } else {
      assert (a + b)[0] == a[0] && (a + b)[1..] == a[1..] + b;
      AssignmentsConcat(a[1..], b);
    }
  }

  lemma {:induction false} RedirectsConcat(a: seq<Redirect>, b: seq<Redirect>)
    ensures HeldInRedirects(a + b) == Join(HeldInRedirects(a), HeldInRedirects(b))
  {
    hide HeldInRedirect;
    if a == [] {
      assert a + b == b;
      JoinLaws(HeldInRedirects(b), Nothing, Nothing);
    } else {
      assert (a + b)[0] == a[0] && (a + b)[1..] == a[1..] + b;
      RedirectsConcat(a[1..], b);
      JoinLaws(HeldInRedirect(a[0]), HeldInRedirects(a[1..]), HeldInRedirects(b));
    }
  }

  lemma HoldAssignment(sc: SimpleCommand, a: Assignment)
    ensures HeldInSimple(sc.(assignments := sc.assignments + [a])) == Join(HeldInSimple(sc), Held([], HasSubst(a.value)))
  {
    hide HasSubst;
    hide AnyWord;
    AssignmentsConcat(sc.assignments, [a]);
    assert [a][1..] == [];
    JoinLaws(HeldInSimple(sc), Nothing, Nothing);
  }

  lemma HoldWord(sc: SimpleCommand, w: Word)
    ensures HeldInSimple(if sc.name.None? then sc.(name := Some(w)) else sc.(args := sc.args + [w])) ==
            Join(HeldInSimple(sc), Held([], HasSubst(w)))
  {
    hide HasSubst;
    AnyWordConcat(sc.args, [w]);
    OneWord(w);
    JoinLaws(HeldInSimple(sc), Nothing, Nothing);
  }

  lemma HoldRedirect(sc: SimpleCommand, r: Redirect)
    ensures HeldInSimple(sc.(redirects := sc.redirects + [r])) == Join(HeldInSimple(sc), HeldInRedirect(r))
  {
    hide HasSubst;
    hide AnyWord;
    hide HeldInRedirect;
    RedirectsConcat(sc.redirects, [r]);
    assert [r][1..] == [] && HeldInRedirects([]) == Nothing;
    JoinLaws(HeldInRedirect(r), Nothing, Nothing);
    var words := Held([], AnyAssignment(sc.assignments) || (sc.name.Some? && HasSubst(sc.name.value)) || AnyWord(sc.args));
    JoinLaws(words, HeldInRedirects(sc.redirects), HeldInRedirect(r));
  }

  lemma AssignmentTraced(s: string, d: nat, ps: PS) returns (tr: seq<Event>)
    requires Inside(s, ps) && Lex(ps.rest, false).Tok? && Lex(ps.rest, false).kind.TWord?
    requires SplitAssignment(Lex(ps.rest, false).kind.text).Some? && ParseAssignment(ps).Good?
    ensures Traced(s, d, ps, tr, ParseAssignment(ps).st) && Heard(tr) == Held([], HasSubst(ParseAssignment(ps).value.value))
  {
    hide Lex;
    hide WordOf;
    hide SplitAssignment;
    hide Traced;
    hide HasSubst;
    var k, p1 := Lex(ps.rest, false).kind, After(ps);
    var text := SplitAssignment(k.text).value.1;
    WordEffect(text, p1.cell);
    WordNestsExactly(text, p1.cell);
    AssignmentNests(k.text);
    WordTokenTraced(s, d, ps, ParseAssignment(ps).st, HasSubst(WordOf(text, p1.cell).value));
    tr := WordEvents(k, false);
  }

  lemma {:induction false} SimpleTraced(s: string, d: nat, ps: PS, sc: SimpleCommand) returns (tr: seq<Event>)
    requires Inside(s, ps) && SimpleLoop(ps, sc).Good?
    ensures Traced(s, d, ps, tr, SimpleLoop(ps, sc).st)
    ensures HeldInSimple(SimpleLoop(ps, sc).value) == Join(HeldInSimple(sc), Heard(tr))
    decreases |ps.rest|
  {
    hide Lex;
    hide Passes;
    hide HeldInSimple;
    hide ParseRedirect;
    hide ParseAssignment;
    hide ParseWord;
    hide FunctionLookahead;
    hide SplitAssignment;
    hide HasSubst;
    var k := Lex(ps.rest, false).kind;
    if IsStop(k) {
      TracedNothing(s, d, ps);
      JoinLaws(HeldInSimple(sc), Nothing, Nothing);
      tr := [];
    } else {
      var t: seq<Event>, st: PS, next: SimpleCommand;
      if k.TRedirect? || k.THereDoc? {
        t := RedirectTraced(s, d, ps);
        var r := ParseRedirect(ps);
        HoldRedirect(sc, r.value);
        st, next := r.st, sc.(redirects := sc.redirects + [r.value]);
      } else if sc.name.None? && k.TWord? && SplitAssignment(k.text).Some? {
        t := AssignmentTraced(s, d, ps);
        var a := ParseAssignment(ps);
        HoldAssignment(sc, a.value);
        st, next := a.st, sc.(assignments := sc.assignments + [a.value]);
      } else {
        t := WordTraced(s, d, ps);
        var w := ParseWord(ps);
        HoldWord(sc, w.value);
        st, next := w.st, if sc.name.None? then sc.(name := Some(w.value)) else sc.(args := sc.args + [w.value]);
      }
      PassesInside(s, ps, false, d, t, st, false, d);
      var u := SimpleTraced(s, d, st, next);
      TracedThen(s, d, ps, t, st, u, SimpleLoop(ps, sc).st);
      JoinLaws(HeldInSimple(sc), Heard(t), Heard(u));
      tr := t + u;
    }
  }

  lemma EmptyHoldsNothing()
    ensures HeldInSimple(EmptySimple) == Nothing
  {
  }

  // ---------------------------------------------------------------- the grammar

  lemma BodiesCons(s: string, at: nat, pend: seq<Pending>)
    requires at <= |s| && pend != [] && AllBodies(s[at..], pend).Bodies?
    ensures OneBody(s[at..], pend[0]).Bodies? && at + OneBody(s[at..], pend[0]).len <= |s|
    ensures var next := at + OneBody(s[at..], pend[0]).len;
            && AllBodies(s[next..], pend[1..]).Bodies?
            && AllBodies(s[at..], pend) ==
               Bodies([BodyAt(s, at, pend[0])] + AllBodies(s[next..], pend[1..]).bodies,
                      OneBody(s[at..], pend[0]).len + AllBodies(s[next..], pend[1..]).len)
  {
    hide OneBody;
    hide AllBodies;
    BodiesOf(s[at..], pend);
    var len := OneBody(s[at..], pend[0]).len;
    assert s[at..][len..] == s[at + len..];
  }

  lemma QueuedCons(p: Pending, ps: seq<Pending>, b: string, bs: seq<string>)
    requires |ps| == |bs|
    ensures Queued([p] + ps, [b] + bs) == [QueueItem(p.quoted, b)] + Queued(ps, bs)
  {
  }

  lemma {:induction false} TakenItems(s: string, items: seq<QueueItem>, at: nat, pend: seq<Pending>)
    requires at <= |s| && AllBodies(s[at..], pend).Bodies?
    ensures QueueAlong(s, items, Taken(s, at, pend)) == items + Queued(pend, AllBodies(s[at..], pend).bodies)
    ensures Heard(Taken(s, at, pend)) == Nothing
    decreases |pend|
  {
    hide OneBody;
    hide AllBodies;
    hide BodyAt;
    if pend == [] {
      assert items + [] == items;
    } else {
      BodiesCons(s, at, pend);
      var e := Collected(at, pend[0]);
      var next := at + OneBody(s[at..], pend[0]).len;
      var rest, bs := Taken(s, next, pend[1..]), AllBodies(s[next..], pend[1..]).bodies;
      var item := ItemAt(s, e);
      TakenItems(s, items + [item], next, pend[1..]);
      assert ([e] + rest)[1..] == rest;
      assert pend == [pend[0]] + pend[1..];
      QueuedCons(pend[0], pend[1..], item.body, bs);
      assert items + [item] + Queued(pend[1..], bs) == items + ([item] + Queued(pend[1..], bs));
      JoinLaws(Nothing, Nothing, Nothing);
    }
  }

  /** What the parser does behind a newline is what reading does there. */
  lemma NewlineIsToken(s: string, d: nat, ps: PS) returns (j: nat)
    requires Inside(s, ps) && HeadIs(ps.rest, TNewline) && Flush(After(ps)).Good?
    ensures var st := Flush(After(ps)).st;
            && Inside(s, st) && j <= |s| && AllBodies(s[j..], ps.pend).Bodies?
            && Token(s, SpotOf(s, ps, false, d)) == Some((Taken(s, j, ps.pend), SpotOf(s, st, false, d)))
            && st.cell.items == ps.cell.items + Queued(ps.pend, AllBodies(s[j..], ps.pend).bodies)
  {
    hide Lex;
    hide AllBodies;
    hide Taken;
    hide Suffix;
    ReadOn(s, ps, false);
    var p1 := After(ps);
    SuffixText(p1.rest, s);
    j := |s| - |p1.rest|;
    assert s[j..] == p1.rest;
    if p1.pend == [] {
      NoBodies(p1.rest);
      assert p1.cell.items + [] == p1.cell.items;
    }
    var len := AllBodies(p1.rest, p1.pend).len;
    DropIsSuffix(p1.rest, len);
    SuffixTrans(p1.rest[len..], p1.rest, s);
    assert p1.rest[0..] == p1.rest;
  }

  lemma SuffixText(t: string, s: string)
    requires Suffix(t, s)
    ensures |t| <= |s| && s[|s| - |t|..] == t
  {
  }

  /** A newline, and the bodies behind it. */
  lemma NewlineTraced(s: string, d: nat, ps: PS) returns (tr: seq<Event>)
    requires Inside(s, ps) && HeadIs(ps.rest, TNewline) && Flush(After(ps)).Good?
    ensures Traced(s, d, ps, tr, Flush(After(ps)).st) && Heard(tr) == Nothing
  {
    hide Lex;
    hide AllBodies;
    hide Walk;
    hide Token;
    hide Taken;
    hide QueueAlong;
    hide Heard;
    hide Flush;
    hide Suffix;
    var st := Flush(After(ps)).st;
    var j := NewlineIsToken(s, d, ps);
    tr := Taken(s, j, ps.pend);
    TakenItems(s, ps.cell.items, j, ps.pend);
    TokenWalks(s, SpotOf(s, ps, false, d), tr, SpotOf(s, st, false, d));
  }

  lemma NoBodies(rest: string)
    ensures AllBodies(rest, []) == Bodies([], 0)
  {
  }

  lemma {:induction false} NewlinesTraced(s: string, d: nat, ps: PS) returns (tr: seq<Event>)
    requires Inside(s, ps) && SkipNewlines(ps).Good?
    ensures Traced(s, d, ps, tr, SkipNewlines(ps).st) && Heard(tr) == Nothing
    decreases |ps.rest|
  {
    hide Lex;
    hide Flush;
    hide Passes;
    if Lex(ps.rest, false).kind.TNewline? {
      var st := Flush(After(ps)).st;
      var t := NewlineTraced(s, d, ps);
      PassesInside(s, ps, false, d, t, st, false, d);
      var u := NewlinesTraced(s, d, st);
      TracedThen(s, d, ps, t, st, u, SkipNewlines(ps).st);
      JoinLaws(Nothing, Nothing, Nothing);
      tr := t + u;
    } else {
      TracedNothing(s, d, ps);
      tr := [];
    }
  }

  /** The pieces of a grammar rule, one behind the other. */
  lemma Chain(s: string, d: nat, a: PS, t: seq<Event>, b: PS, u: seq<Event>, c: PS, x: Held, y: Held)
    requires Traced(s, d, a, t, b) && Traced(s, d, b, u, c) && Heard(t) == x && Heard(u) == y
    ensures Traced(s, d, a, t + u, c) && Heard(t + u) == Join(x, y)
    ensures x == Nothing ==> Heard(t + u) == y
    ensures y == Nothing ==> Heard(t + u) == x
  {
    hide Traced;
    hide Heard;
    TracedThen(s, d, a, t, b, u, c);
    JoinLaws(x, Nothing, Nothing);
    JoinLaws(y, Nothing, Nothing);
  }

  lemma TracedInside(s: string, d: nat, ps: PS, tr: seq<Event>, st: PS)
    requires Traced(s, d, ps, tr, st)
    ensures Inside(s, st)
  {
    hide Passes;
    PassesInside(s, ps, false, d, tr, st, false, d);
  }

  lemma {:induction false} ScriptTraced(s: string, d: nat, ps: PS) returns (tr: seq<Event>)
    requires Inside(s, ps) && ParseScript(ps).Good?
    ensures Traced(s, d, ps, tr, ParseScript(ps).st) && Heard(tr) == HeldIn(ParseScript(ps).value)
    ensures HeadEnds(ParseScript(ps).st.rest)
    decreases |ps.rest|, 29
  {
    hide ScriptLoop;
    hide SkipNewlines;
    hide Traced;
    hide HeldIn;
    hide HeadEnds;
    var t := NewlinesTraced(s, d, ps);
    var p0 := SkipNewlines(ps).st;
    TracedInside(s, d, ps, t, p0);
    var u := ScriptLoopTraced(s, d, p0);
    Chain(s, d, ps, t, p0, u, ParseScript(ps).st, Nothing, HeldIn(ParseScript(ps).value));
    tr := t + u;
  }

  predicate HeadEnds(s: string) {
    Lex(s, false).Tok? && IsScriptEnd(Lex(s, false).kind)
  }

  lemma SeparatorTraced(s: string, d: nat, ps: PS)
    requires Inside(s, ps) && SkipSeparator(ps).Good?
    ensures Traced(s, d, ps, [], SkipSeparator(ps).st) && Heard([]) == Nothing
  {
    hide Lex;
    hide Traced;
    TracedNothing(s, d, ps);
    if Lex(ps.rest, false).kind.TSemi? { TokenTraced(s, d, ps); }
  }

  lemma HeldCons(c: Command, cs: seq<Command>)
    ensures HeldIn([c] + cs) == Join(HeldInCommand(c), HeldIn(cs))
  {
    hide HeldInCommand;
    assert ([c] + cs)[1..] == cs;
  }

  lemma {:induction false} ScriptLoopTraced(s: string, d: nat, ps: PS) returns (tr: seq<Event>)
    requires Inside(s, ps) && !HeadIs(ps.rest, TNewline) && ScriptLoop(ps).Good?
    ensures Traced(s, d, ps, tr, ScriptLoop(ps).st) && Heard(tr) == HeldIn(ScriptLoop(ps).value)
    ensures HeadEnds(ScriptLoop(ps).st.rest)
    decreases |ps.rest|, 28
  {
    hide Lex;
    hide ParseListItem;
    hide SkipSeparator;
    hide SkipNewlines;
    hide Traced;
    hide HeldInCommand;
    hide Heard;
    if IsScriptEnd(Lex(ps.rest, false).kind) {
      TracedNothing(s, d, ps);
      tr := [];
    } else {
      var item := ParseListItem(ps);
      var t1 := ItemTraced(s, d, ps);
      TracedInside(s, d, ps, t1, item.st);
      SeparatorTraced(s, d, item.st);
      var p2 := SkipSeparator(item.st).st;
      TracedInside(s, d, item.st, [], p2);
      var t3 := NewlinesTraced(s, d, p2);
      var p3 := SkipNewlines(p2).st;
      TracedInside(s, d, p2, t3, p3);
      var t4 := ScriptLoopTraced(s, d, p3);
      var last := ScriptLoop(p3);
      Chain(s, d, p2, t3, p3, t4, last.st, Nothing, HeldIn(last.value));
      Chain(s, d, item.st, [], p2, t3 + t4, last.st, Nothing, HeldIn(last.value));
      Chain(s, d, ps, t1, item.st, [] + (t3 + t4), last.st, HeldInCommand(item.value), HeldIn(last.value));
      tr := t1 + ([] + (t3 + t4));
      HeldCons(item.value, last.value);
    }
  }

  lemma {:induction false} ItemTraced(s: string, d: nat, ps: PS) returns (tr: seq<Event>)
    requires Inside(s, ps) && ParseListItem(ps).Good?
    ensures Traced(s, d, ps, tr, ParseListItem(ps).st) && Heard(tr) == HeldInCommand(ParseListItem(ps).value)
    decreases |ps.rest|, 27
  {
    hide Lex;
    hide ParsePipelineCmd;
    hide ListLoop;
    hide Traced;
    hide Heard;
    var first := ParsePipelineCmd(ps);
    var t := PipelineCmdTraced(s, d, ps);
    TracedInside(s, d, ps, t, first.st);
    var u := ListTraced(s, d, first.value, first.st);
    var c := ListLoop(first.value, first.st);
    Chain(s, d, ps, t, first.st, u, c.st, Heard(t), Heard(u));
    tr := t + u;
    if Lex(c.st.rest, false).kind.TAmp? {
      TracedInside(s, d, first.st, u, c.st);
      TokenTraced(s, d, c.st);
      TracedNothing(s, d, c.st);
      Chain(s, d, ps, tr, c.st, [], After(c.st), Heard(tr), Nothing);
      tr := tr + [];
    }
  }

  /** What the list loop adds to the command it has. */
  lemma {:induction false} ListTraced(s: string, d: nat, left: Command, ps: PS) returns (tr: seq<Event>)
    requires Inside(s, ps) && ListLoop(left, ps).Good?
    ensures Traced(s, d, ps, tr, ListLoop(left, ps).st)
    ensures Join(HeldInCommand(left), Heard(tr)) == HeldInCommand(ListLoop(left, ps).value)
    decreases |ps.rest|, 26
  {
    hide Lex;
    hide ParsePipelineCmd;
    hide SkipNewlines;
    hide HeldInCommand;
    hide Traced;
    hide Heard;
    var k := Lex(ps.rest, false).kind;
    if k.TAndAnd? || k.TOrOr? {
      var p1 := After(ps);
      TokenTraced(s, d, ps);
      TracedNothing(s, d, ps);
      TracedInside(s, d, ps, [], p1);
      var t2 := NewlinesTraced(s, d, p1);
      var p2 := SkipNewlines(p1).st;
      TracedInside(s, d, p1, t2, p2);
      var right := ParsePipelineCmd(p2);
      var t3 := PipelineCmdTraced(s, d, p2);
      TracedInside(s, d, p2, t3, right.st);
      var next := if k.TAndAnd? then And(left, right.value) else Or(left, right.value);
      var t4 := ListTraced(s, d, next, right.st);
      var last := ListLoop(next, right.st);
      var h3, h4 := Heard(t3), Heard(t4);
      Chain(s, d, p2, t3, right.st, t4, last.st, h3, h4);
      Chain(s, d, p1, t2, p2, t3 + t4, last.st, Nothing, Join(h3, h4));
      Chain(s, d, ps, [], p1, t2 + (t3 + t4), last.st, Nothing, Join(h3, h4));
      tr := [] + (t2 + (t3 + t4));
      HeldInPair(left, right.value);
      JoinLaws(HeldInCommand(left), h3, h4);
    } else {
      TracedNothing(s, d, ps);
      JoinLaws(HeldInCommand(left), Nothing, Nothing);
      tr := [];
    }
  }

  lemma HeldInPair(l: Command, r: Command)
    ensures HeldInCommand(And(l, r)) == HeldInCommand(Or(l, r)) == Join(HeldInCommand(l), HeldInCommand(r))
  {
  }

  lemma {:induction false} PipelineCmdTraced(s: string, d: nat, ps: PS) returns (tr: seq<Event>)
    requires Inside(s, ps) && ParsePipelineCmd(ps).Good?
    ensures Traced(s, d, ps, tr, ParsePipelineCmd(ps).st) && Heard(tr) == HeldInCommand(ParsePipelineCmd(ps).value)
    decreases |ps.rest|, 25
  {
    hide Lex;
    hide ParsePipeline;
    hide Traced;
    hide HeldInCommand;
    hide Heard;
    if Lex(ps.rest, false).kind.TBang? {
      var p1, r := After(ps), ParsePipelineCmd(ps);
      TokenTraced(s, d, ps);
      TracedNothing(s, d, ps);
      TracedInside(s, d, ps, [], p1);
      var t := PipelineTraced(s, d, p1, true);
      Chain(s, d, ps, [], p1, t, r.st, Nothing, HeldInCommand(r.value));
      tr := [] + t;
    } else {
      tr := PipelineTraced(s, d, ps, false);
    }
  }

  lemma StagesCons(sc: SimpleCommand, scs: seq<SimpleCommand>, negated: bool)
    ensures HeldInStages([sc] + scs) == Join(HeldInSimple(sc), HeldInStages(scs))
    ensures HeldInCommand(Pipe(Pipeline([sc], negated))) == HeldInCommand(Simple(sc)) == HeldInSimple(sc)
  {
    hide HeldInSimple;
    assert ([sc] + scs)[1..] == scs && [sc][1..] == [];
    assert HeldInStages([]) == Nothing;
    JoinLaws(HeldInSimple(sc), Nothing, Nothing);
  }

  lemma {:induction false} PipelineTraced(s: string, d: nat, ps: PS, negated: bool) returns (tr: seq<Event>)
    requires Inside(s, ps) && ParsePipeline(ps, negated).Good?
    ensures Traced(s, d, ps, tr, ParsePipeline(ps, negated).st)
    ensures Heard(tr) == HeldInCommand(ParsePipeline(ps, negated).value)
    decreases |ps.rest|, 24
  {
    hide Lex;
    hide ParseCommand;
    hide StageLoop;
    hide Traced;
    hide HeldInSimple;
    hide Heard;
    var first := ParseCommand(ps);
    tr := CommandTraced(s, d, ps);
    if first.value.Simple? { StagesCons(first.value.sc, [], negated); }
    if Lex(first.st.rest, false).kind.TPipe? {
      var sc := first.value.sc;
      var stages := StageLoop(first.st);
      TracedInside(s, d, ps, tr, first.st);
      var u := StagesTraced(s, d, first.st);
      Chain(s, d, ps, tr, first.st, u, stages.st, HeldInSimple(sc), HeldInStages(stages.value));
      tr := tr + u;
      StagesCons(sc, stages.value, negated);
    }
  }

  lemma {:induction false} StagesTraced(s: string, d: nat, ps: PS) returns (tr: seq<Event>)
    requires Inside(s, ps) && StageLoop(ps).Good?
    ensures Traced(s, d, ps, tr, StageLoop(ps).st) && Heard(tr) == HeldInStages(StageLoop(ps).value)
    decreases |ps.rest|, 23
  {
    hide Lex;
    hide ParseCommand;
    hide SkipNewlines;
    hide Traced;
    hide HeldInSimple;
    hide Heard;
    TracedNothing(s, d, ps);
    tr := [];
    if Lex(ps.rest, false).kind.TPipe? {
      var p1 := After(ps);
      TokenTraced(s, d, ps);
      TracedInside(s, d, ps, [], p1);
      var t2 := NewlinesTraced(s, d, p1);
      var p2 := SkipNewlines(p1).st;
      TracedInside(s, d, p1, t2, p2);
      var c := ParseCommand(p2);
      var t3 := CommandTraced(s, d, p2);
      TracedInside(s, d, p2, t3, c.st);
      var more := StageLoop(c.st);
      var t4 := StagesTraced(s, d, c.st);
      StagesCons(c.value.sc, more.value, false);
      var h := HeldInStages([c.value.sc] + more.value);
      Chain(s, d, p2, t3, c.st, t4, more.st, HeldInSimple(c.value.sc), HeldInStages(more.value));
      Chain(s, d, p1, t2, p2, t3 + t4, more.st, Nothing, h);
      Chain(s, d, ps, [], p1, t2 + (t3 + t4), more.st, Nothing, h);
      tr := [] + (t2 + (t3 + t4));
    }
  }

  lemma {:induction false} CommandTraced(s: string, d: nat, ps: PS) returns (tr: seq<Event>)
    requires Inside(s, ps) && ParseCommand(ps).Good?
    ensures Traced(s, d, ps, tr, ParseCommand(ps).st) && Heard(tr) == HeldInCommand(ParseCommand(ps).value)
    decreases |ps.rest|, 22
  {
    hide Lex;
    hide ParseSubshell;
    hide ParseGroup;
    hide SimpleLoop;
    hide Traced;
    hide HeldInSimple;
    hide HeldIn;
    hide IsReserved;
    hide Heard;
    var k := Lex(ps.rest, false).kind;
    if k.TLParen? {
      tr := SubshellTraced(s, d, ps);
    } else if k.TLBrace? {
      tr := GroupTraced(s, d, ps);
    } else {
      tr := SimpleTraced(s, d, ps, EmptySimple);
      EmptyHoldsNothing();
      JoinLaws(Heard(tr), Nothing, Nothing);
    }
  }

  /** A bracket, what is inside, and the bracket that closes it. */
  lemma Bracketed(s: string, d: nat, ps: PS, tr: seq<Event>, st: PS)
    requires Inside(s, ps) && Lex(ps.rest, false).Tok? && Opens(Lex(ps.rest, false).kind)
    requires Traced(s, d + 1, After(ps), tr, st) && Lex(st.rest, false).Tok? && Closes(Lex(st.rest, false).kind)
    ensures Traced(s, d, ps, tr, After(st))
  {
    hide Lex;
    hide Passes;
    TracedInside(s, d + 1, After(ps), tr, st);
    OpenPasses(s, d, ps);
    ClosePasses(s, d, st);
    PassesThen(s, ps, false, d, [], After(ps), false, d + 1, tr, st, false, d + 1);
    PassesThen(s, ps, false, d, [] + tr, st, false, d + 1, [], After(st), false, d);
    assert [] + tr + [] == tr;
  }

  lemma OpenInside(s: string, d: nat, ps: PS)
    requires Inside(s, ps) && Lex(ps.rest, false).Tok? && Opens(Lex(ps.rest, false).kind)
    ensures Inside(s, After(ps))
  {
    hide Lex;
    hide Passes;
    OpenPasses(s, d, ps);
    PassesInside(s, ps, false, d, [], After(ps), false, d + 1);
  }

  lemma {:induction false} SubshellTraced(s: string, d: nat, ps: PS) returns (tr: seq<Event>)
    requires Inside(s, ps) && HeadIs(ps.rest, TLParen) && ParseSubshell(ps).Good?
    ensures Traced(s, d, ps, tr, ParseSubshell(ps).st) && Heard(tr) == HeldInCommand(ParseSubshell(ps).value)
    decreases |ps.rest|, 21
  {
    hide Lex;
    hide ParseScript;
    hide SkipNewlines;
    hide Traced;
    hide HeldIn;
    hide Heard;
    var p1 := After(ps);
    OpenInside(s, d, ps);
    var t2 := NewlinesTraced(s, d + 1, p1);
    var p2 := SkipNewlines(p1).st;
    TracedInside(s, d + 1, p1, t2, p2);
    var t3 := ScriptTraced(s, d + 1, p2);
    var body := ParseScript(p2);
    Chain(s, d + 1, p1, t2, p2, t3, body.st, Nothing, HeldIn(body.value));
    tr := t2 + t3;
    Bracketed(s, d, ps, tr, body.st);
  }

  lemma {:induction false} GroupTraced(s: string, d: nat, ps: PS) returns (tr: seq<Event>)
    requires Inside(s, ps) && HeadIs(ps.rest, TLBrace) && ParseGroup(ps).Good?
    ensures Traced(s, d, ps, tr, ParseGroup(ps).st) && Heard(tr) == HeldInCommand(ParseGroup(ps).value)
    decreases |ps.rest|, 21
  {
    hide Lex;
    hide ParseScript;
    hide SkipNewlines;
    hide SkipSeparator;
    hide Traced;
    hide HeldIn;
    hide Heard;
    var p1 := After(ps);
    OpenInside(s, d, ps);
    var t2 := NewlinesTraced(s, d + 1, p1);
    var p2 := SkipNewlines(p1).st;
    TracedInside(s, d + 1, p1, t2, p2);
    var t3 := ScriptTraced(s, d + 1, p2);
    var body := ParseScript(p2);
    TracedInside(s, d + 1, p2, t3, body.st);
    SeparatorTraced(s, d + 1, body.st);
    var p4 := SkipSeparator(body.st).st;
    TracedInside(s, d + 1, body.st, [], p4);
    var t5 := NewlinesTraced(s, d + 1, p4);
    var p5 := SkipNewlines(p4).st;
    var h := HeldIn(body.value);
    Chain(s, d + 1, body.st, [], p4, t5, p5, Nothing, Nothing);
    Chain(s, d + 1, p2, t3, body.st, [] + t5, p5, h, Nothing);
    Chain(s, d + 1, p1, t2, p2, t3 + ([] + t5), p5, Nothing, h);
    tr := t2 + (t3 + ([] + t5));
    Bracketed(s, d, ps, tr, p5);
  }

  // ---------------------------------------------------------------- whole texts

  /** A text from its start. */
  function WalkText(s: string): Pass {
    Walk(s, Spot(0, false, 0, []))
  }

  /** For every text that parses, with any queue: the tree holds exactly the heredocs that were
      announced, in order, and a command substitution exactly if a word of the text holds one; parsing
      stops where reading stops; what still waits for a body, and the queue, are as reading leaves
      them. */
  lemma ParsingIsReading(s: string, items: seq<QueueItem>)
    requires ParseScript(PS(s, [], Free(items))).Good?
    ensures var r, p := ParseScript(PS(s, [], Free(items))), WalkText(s);
            && HeldIn(r.value) == Heard(p.trace)
            && p.stop <= |s| && r.st == PS(s[p.stop..], p.pend, Free(QueueAlong(s, items, p.trace)))
  {
    hide Lex;
    hide ParseScript;
    hide HeldIn;
    hide Heard;
    hide QueueAlong;
    var ps := PS(s, [], Free(items));
    assert Inside(s, ps);
    var tr := ScriptTraced(s, 0, ps);
    var st := ParseScript(ps).st;
    TracedInside(s, 0, ps, tr, st);
    assert st.rest == s[|s| - |st.rest|..];
    assert WalkFrom(s, st, false, 0) == Pass([], |s| - |st.rest|, st.pend);
    assert tr + [] == tr;
  }

  /** A script ends at the end of the text or at a bracket that closes nothing; what stands behind is
      ignored exactly in the second case. */
  lemma WhereParsingStops(s: string, items: seq<QueueItem>)
    requires ParseScript(PS(s, [], Free(items))).Good?
    ensures var rest := ParseScript(PS(s, [], Free(items))).st.rest;
            && WalkText(s).stop <= |s| && rest == s[WalkText(s).stop..]
            && Lex(rest, false).Tok? && (Lex(rest, false).kind.TEof? || Closes(Lex(rest, false).kind))
            && (Skipped(rest) == |rest| <==> Lex(rest, false).kind.TEof?)
  {
    hide ParseScript;
    hide Walk;
    var ps := PS(s, [], Free(items));
    assert Inside(s, ps);
    var _ := ScriptTraced(s, 0, ps);
    ParsingIsReading(s, items);
  }
}
