/** Which heredoc gets which body, for every text. Reading the text once tells which heredocs are
    announced, which bodies are collected where, and how many of them nested scripts throw away; that
    number is how far every heredoc's body is off. */
module HeredocQueue {
  import opened Ast
  import opened LexSpec
  import opened ParseSpec
  import opened WordEffects
  import opened Reading
  import opened Heredocs

  // ---------------------------------------------------------------- what a trace says

  function DocsIn(tr: seq<Event>): seq<Pending> {
    if tr == [] then [] else (if tr[0].Announced? then [tr[0].doc] else []) + DocsIn(tr[1..])
  }

  /** Where bodies were collected, and for which heredocs. */
  function Places(tr: seq<Event>): (r: seq<Event>)
    ensures forall e :: e in r ==> e.Collected?
  {
    if tr == [] then [] else (if tr[0].Collected? then [tr[0]] else []) + Places(tr[1..])
  }

  function Owners(tr: seq<Event>): seq<Pending> {
    seq(|Places(tr)|, k requires 0 <= k < |Places(tr)| => Places(tr)[k].doc)
  }

  /** The bodies collected along a trace, in the order of collection. */
  function BodiesIn(s: string, tr: seq<Event>): seq<QueueItem> {
    seq(|Places(tr)|, k requires 0 <= k < |Places(tr)| => ItemAt(s, Places(tr)[k]))
  }

  /** How many bodies nested scripts throw away, those included that were waiting before. */
  function Lost(waiting: nat, tr: seq<Event>): nat
    decreases |tr|
  {
    if tr == [] then 0
    else if tr[0].Nested? then waiting + Lost(0, tr[1..])
    else Lost(if tr[0].Collected? then waiting + 1 else waiting, tr[1..])
  }

  lemma PlacesCons(e: Event, tr: seq<Event>)
    ensures Places([e] + tr) == (if e.Collected? then [e] else []) + Places(tr) && Places([]) == []
  {
    assert ([e] + tr)[1..] == tr;
  }

  lemma EventCons(s: string, e: Event, tr: seq<Event>)
    ensures BodiesIn(s, [e] + tr) == (if e.Collected? then [ItemAt(s, e)] else []) + BodiesIn(s, tr)
    ensures Owners([e] + tr) == (if e.Collected? then [e.doc] else []) + Owners(tr)
    ensures BodiesIn(s, []) == [] && Owners([]) == []
  {
    hide Places;
    hide ItemAt;
    PlacesCons(e, tr);
  }

  /** The first n are gone. */
  predicate TailIs(q: seq<QueueItem>, all: seq<QueueItem>, n: nat) {
    n <= |all| && q == all[n..]
  }

  lemma TailOfBoth(q: seq<QueueItem>, a: seq<QueueItem>, b: seq<QueueItem>, n: nat)
    requires TailIs(q, [] + b, n)
    ensures TailIs(q, a + ([] + b), |a| + n)
  {
    assert [] + b == b && (a + b)[|a| + n..] == b[n..];
  }

  lemma TailRegroup(q: seq<QueueItem>, a: seq<QueueItem>, x: QueueItem, b: seq<QueueItem>, n: nat)
    requires TailIs(q, a + [x] + b, n)
    ensures TailIs(q, a + ([x] + b), n)
  {
    assert a + [x] + b == a + ([x] + b);
  }

  /** At the end the queue is what was waiting and what was collected, without what was lost. */
  lemma {:induction false} QueueIsASuffix(s: string, items: seq<QueueItem>, tr: seq<Event>)
    ensures TailIs(QueueAlong(s, items, tr), items + BodiesIn(s, tr), Lost(|items|, tr))
    decreases |tr|
  {
    hide ItemAt;
    hide BodiesIn;
    hide TailIs;
    if tr == [] {
      EventCons(s, Nested, []);
      assert items + [] == items;
      assert TailIs(items, items, 0) by { NothingGone(items); }
    } else {
      var e, rest := tr[0], tr[1..];
      var next := if e.Nested? then [] else if e.Collected? then items + [ItemAt(s, e)] else items;
      assert tr == [e] + rest;
      EventCons(s, e, rest);
      QueueIsASuffix(s, next, rest);
      var c, q := BodiesIn(s, rest), QueueAlong(s, next, rest);
      if e.Nested? {
        TailOfBoth(q, items, c, Lost(0, rest));
      } else if e.Collected? {
        TailRegroup(q, items, ItemAt(s, e), c, Lost(|items| + 1, rest));
      } else {
        assert [] + c == c;
      }
    }
  }

  lemma NothingGone(q: seq<QueueItem>)
    ensures TailIs(q, q, 0)
  {
  }

  /** No nested script is read once a body is waiting. */
  predicate Undisturbed(waiting: nat, tr: seq<Event>) {
    forall i :: 0 <= i < |tr| ==> QuietAt(waiting, tr, i)
  }

  predicate QuietAt(waiting: nat, tr: seq<Event>, i: nat)
    requires i < |tr|
  {
    tr[i].Nested? ==> waiting == 0 && Places(tr[..i]) == []
  }

  /** No body is lost exactly if none is waiting where a nested script is read. */
  lemma {:induction false} NothingLost(waiting: nat, tr: seq<Event>)
    ensures Lost(waiting, tr) == 0 <==> Undisturbed(waiting, tr)
    decreases |tr|
  {
    hide Undisturbed;
    if tr == [] {
      NothingIsQuiet(waiting);
    } else {
      NothingLost(StillWaiting(waiting, tr[0]), tr[1..]);
      assert tr == [tr[0]] + tr[1..];
      UndisturbedStep(waiting, tr[0], tr[1..]);
    }
  }

  lemma NothingIsQuiet(waiting: nat)
    ensures Undisturbed(waiting, [])
  {
  }

  function StillWaiting(waiting: nat, e: Event): nat {
    if e.Nested? then 0 else if e.Collected? then waiting + 1 else waiting
  }

  lemma QuietLater(waiting: nat, e: Event, rest: seq<Event>, i: nat)
    requires i < |rest| && (e.Nested? ==> waiting == 0)
    ensures QuietAt(waiting, [e] + rest, i + 1) <==> QuietAt(StillWaiting(waiting, e), rest, i)
  {
    hide Places;
    assert ([e] + rest)[..i + 1] == [e] + rest[..i] && ([e] + rest)[i + 1] == rest[i];
    PlacesCons(e, rest[..i]);
  }

  lemma QuietFirst(waiting: nat, e: Event, rest: seq<Event>)
    ensures QuietAt(waiting, [e] + rest, 0) <==> (e.Nested? ==> waiting == 0)
  {
    hide Places;
    assert ([e] + rest)[..0] == [];
    PlacesCons(e, rest);
  }

  lemma UndisturbedStep(waiting: nat, e: Event, rest: seq<Event>)
    ensures Undisturbed(waiting, [e] + rest) <==>
            (e.Nested? ==> waiting == 0) && Undisturbed(StillWaiting(waiting, e), rest)
  {
    hide QuietAt;
    hide StillWaiting;
    var tr := [e] + rest;
    QuietFirst(waiting, e, rest);
    if e.Nested? ==> waiting == 0 {
      forall i | 0 <= i < |rest| ensures QuietAt(waiting, tr, i + 1) <==> QuietAt(StillWaiting(waiting, e), rest, i) {
        QuietLater(waiting, e, rest, i);
      }
      if Undisturbed(StillWaiting(waiting, e), rest) {
        forall j | 0 <= j < |tr| ensures QuietAt(waiting, tr, j) {
          if j > 0 { assert QuietAt(waiting, tr, j - 1 + 1) <==> QuietAt(StillWaiting(waiting, e), rest, j - 1); }
        }
      }
    } else {
      assert !QuietAt(waiting, tr, 0);
    }
  }

  // ---------------------------------------------------------------- where the bodies are

  lemma {:induction false} PlacesConcat(a: seq<Event>, b: seq<Event>)
    ensures Places(a + b) == Places(a) + Places(b)
    decreases |a|
  {
    if a == [] {
      assert a + b == b;
    } else {
      assert (a + b)[0] == a[0] && (a + b)[1..] == a[1..] + b;
      PlacesConcat(a[1..], b);
    }
  }

  lemma {:induction false} DocsConcat(a: seq<Event>, b: seq<Event>)
    ensures DocsIn(a + b) == DocsIn(a) + DocsIn(b)
    decreases |a|
  {
    if a == [] {
      assert a + b == b;
    } else {
      assert (a + b)[0] == a[0] && (a + b)[1..] == a[1..] + b;
      DocsConcat(a[1..], b);
    }
  }

  lemma OwnersConcat(a: seq<Event>, b: seq<Event>)
    ensures Owners(a + b) == Owners(a) + Owners(b)
  {
    hide Places;
    PlacesConcat(a, b);
  }

  lemma WordEventsQuiet(k: TokenKind, dq: bool)
    ensures DocsIn(WordEvents(k, dq)) == [] && Places(WordEvents(k, dq)) == []
  {
  }

  /** Behind a line the bodies are collected one behind the other, each for its heredoc. */
  lemma {:induction false} TakenInOrder(s: string, at: nat, pend: seq<Pending>)
    requires at <= |s| && AllBodies(s[at..], pend).Bodies? && LineStart(s, at)
    ensures var tr := Taken(s, at, pend);
            && DocsIn(tr) == [] && Places(tr) == tr && Owners(tr) == pend
            && Placed(s, tr, at, at + AllBodies(s[at..], pend).len)
    decreases |pend|
  {
    hide OneBody;
    hide AllBodies;
    hide EndOf;
    if pend == [] {
      assert AllBodies(s[at..], []) == Bodies([], 0) by { NoBodies(s[at..]); }
    } else {
      BodiesCons(s, at, pend);
      var e := Collected(at, pend[0]);
      var next := EndOf(s, e);
      EndIsAtALine(s, at, pend[0]);
      var rest := Taken(s, next, pend[1..]);
      TakenInOrder(s, next, pend[1..]);
      PlacesCons(e, rest);
      EventCons(s, e, rest);
      assert ([e] + rest)[1..] == rest;
      PlacedCons(s, e, rest, at + AllBodies(s[at..], pend).len);
    }
  }

  /** Behind a newline, or at the end of the text. */
  predicate LineStart(s: string, i: nat) {
    0 < i <= |s| && (i == |s| || s[i - 1] == '\n')
  }

  /** Behind the line that ends a body. */
  function EndOf(s: string, e: Event): nat
    requires e.Collected?
  {
    if e.at <= |s| && OneBody(s[e.at..], e.doc).Bodies? then e.at + OneBody(s[e.at..], e.doc).len else e.at
  }

  /** A body stands there: it starts with a line, and a later line ends it. */
  predicate Stands(s: string, e: Event) {
    e.Collected? && e.at <= |s| && LineStart(s, e.at) && OneBody(s[e.at..], e.doc).Bodies?
  }

  /** The bodies stand in this part of the text, none starting before the one in front of it ends. */
  predicate Placed(s: string, ps: seq<Event>, from: nat, to: nat) {
    && (forall k :: 0 <= k < |ps| ==> Stands(s, ps[k]) && from <= ps[k].at && EndOf(s, ps[k]) <= to)
    && (forall j, k :: 0 <= j < k < |ps| ==> EndOf(s, ps[j]) <= ps[k].at)
  }

  lemma PlacedCons(s: string, e: Event, ps: seq<Event>, to: nat)
    requires e.Collected? && Stands(s, e) && Placed(s, ps, EndOf(s, e), to) && EndOf(s, e) <= to
    ensures Placed(s, [e] + ps, e.at, to)
  {
    assert EndOf(s, e) >= e.at;
    hide Stands;
  }

  lemma PlacedConcat(s: string, a: seq<Event>, b: seq<Event>, i: nat, j: nat, k: nat)
    requires Placed(s, a, i, j) && Placed(s, b, j, k) && i <= j <= k
    ensures Placed(s, a + b, i, k)
  {
    hide Stands;
    hide EndOf;
  }

  lemma EndIsAtALine(s: string, at: nat, doc: Pending)
    requires at <= |s| && OneBody(s[at..], doc).Bodies? && LineStart(s, at)
    ensures EndOf(s, Collected(at, doc)) == at + OneBody(s[at..], doc).len <= |s|
    ensures LineStart(s, EndOf(s, Collected(at, doc)))
  {
    hide OneBody;
    BodyEndsALine(s[at..], doc);
    var len := OneBody(s[at..], doc).len;
    if 0 < len < |s[at..]| { assert s[at..][len - 1] == s[at + len - 1]; }
  }

  lemma {:induction false} BodyEndsALine(t: string, doc: Pending)
    requires OneBody(t, doc).Bodies?
    ensures var len := OneBody(t, doc).len; len == |t| || (0 < len < |t| && t[len - 1] == '\n')
    decreases |t|
  {
    hide IsDelimiterLine;
    var n := Before(t, '\n');
    if !IsDelimiterLine(t[..n], doc) { BodyEndsALine(t[n + 1..], doc); }
  }

  lemma NoNewlineHere(s: string)
    ensures LexRedirect(s).Tok? ==> !LexRedirect(s).kind.TNewline?
    ensures LexWord(s).Tok? ==> LexWord(s).kind.TWord?
  {
    hide HeredocDelimiter;
    hide Blanks;
  }

  /** A newline token ends with the newline. */
  lemma NewlineToken(t: string)
    requires HeadIs(t, TNewline)
    ensures 0 < Lex(t, false).end <= |t| && t[Lex(t, false).end - 1] == '\n'
  {
    hide Skipped;
    hide LexRedirect;
    hide LexWord;
    hide Before;
    NoNewlineHere(t[Skipped(t)..]);
  }

  /** One token: the bodies collected behind it belong to the heredocs that were pending, and stand
      between this place and the next. */
  lemma TokenInOrder(s: string, p: Spot)
    requires p.i <= |s| && Token(s, p).Some?
    ensures var tr, q := Token(s, p).value.0, Token(s, p).value.1;
            Owners(tr) + q.pend == p.pend + DocsIn(tr) && Placed(s, Places(tr), p.i, q.i)
  {
    hide Lex;
    hide AllBodies;
    hide Taken;
    hide DocsIn;
    hide Places;
    hide Placed;
    hide WordEvents;
    var k, tr := Lex(s[p.i..], p.dq).kind, Token(s, p).value.0;
    if !p.dq && k.TNewline? {
      var j := p.i + Lex(s[p.i..], false).end;
      NewlineToken(s[p.i..]);
      assert s[j - 1] == '\n';
      TakenInOrder(s, j, p.pend);
      NothingPlaced(s, p.i, j);
      PlacedConcat(s, [], Places(tr), p.i, j, Token(s, p).value.1.i);
      assert [] + Places(tr) == Places(tr) && p.pend + [] == p.pend;
    } else {
      NothingPlaced(s, p.i, Token(s, p).value.1.i);
      if !p.dq && k.THereDoc? {
        OneDoc(tr[0]);
      } else {
        WordEventsQuiet(k, p.dq);
        assert p.pend + [] == p.pend;
      }
      assert Owners(tr) == [];
      assert [] + Token(s, p).value.1.pend == Token(s, p).value.1.pend;
    }
  }

  lemma OneDoc(e: Event)
    requires e.Announced?
    ensures DocsIn([e]) == [e.doc] && Places([e]) == []
  {
    assert [e][1..] == [] && DocsIn([]) == [];
  }

  lemma NothingPlaced(s: string, from: nat, to: nat)
    ensures Placed(s, [], from, to)
  {
  }

  /** Over any part of a text: the bodies belong, in order, to the heredocs that were pending or are
      announced there, and the rest of those is pending at the end; every body starts a line and
      ends before the next one starts. */
  lemma {:induction false} BodiesStandInOrder(s: string, p: Spot)
    requires p.i <= |s|
    ensures var w := Walk(s, p);
            && Owners(w.trace) + w.pend == p.pend + DocsIn(w.trace)
            && p.i <= w.stop <= |s| && Placed(s, Places(w.trace), p.i, w.stop)
    decreases |s| - p.i
  {
    hide Token;
    hide DocsIn;
    hide Places;
    hide Placed;
    hide Owners;
    if Token(s, p).Some? {
      var (tr, q) := Token(s, p).value;
      var more := Walk(s, q);
      TokenInOrder(s, p);
      BodiesStandInOrder(s, q);
      DocsConcat(tr, more.trace);
      OwnersConcat(tr, more.trace);
      PlacesConcat(tr, more.trace);
      PlacedConcat(s, Places(tr), Places(more.trace), p.i, q.i, more.stop);
      Regroup(Owners(tr), Owners(more.trace), more.pend, q.pend, p.pend, DocsIn(tr), DocsIn(more.trace));
    } else {
      NothingPlaced(s, p.i, p.i);
      EmptyTrace(p.pend);
    }
  }

  lemma Regroup<T>(a: seq<T>, b: seq<T>, end: seq<T>, mid: seq<T>, start: seq<T>, x: seq<T>, y: seq<T>)
    requires a + mid == start + x && b + end == mid + y
    ensures a + b + end == start + (x + y)
  {
    assert a + b + end == a + (b + end) == a + mid + y;
    assert start + x + y == start + (x + y);
  }

  lemma EmptyTrace(pend: seq<Pending>)
    ensures Places([]) == [] && Owners([]) + pend == pend + DocsIn([])
  {
    assert Owners([]) == [] && DocsIn([]) == [];
    assert [] + pend == pend + [];
  }

  // ---------------------------------------------------------------- filling in

  function Blanked(hd: Heredoc): Heredoc {
    hd.(body := LiteralBody(""))
  }

  function BlankDocs(hds: seq<Heredoc>): seq<Heredoc> {
    seq(|hds|, k requires 0 <= k < |hds| => Blanked(hds[k]))
  }

  function BodiesOfDocs(hds: seq<Heredoc>): seq<HeredocBody> {
    seq(|hds|, k requires 0 <= k < |hds| => hds[k].body)
  }

  /** A part of a tree and the same with its bodies blanked. */
  predicate BlankedTo(held: Held, bodies: seq<HeredocBody>, blank: Held) {
    bodies == BodiesOfDocs(held.docs) && blank == Held(BlankDocs(held.docs), held.subst)
  }

  lemma BlanksJoin(a: Held, x: seq<HeredocBody>, a': Held, b: Held, y: seq<HeredocBody>, b': Held)
    requires BlankedTo(a, x, a') && BlankedTo(b, y, b')
    ensures BlankedTo(Join(a, b), x + y, Join(a', b'))
  {
  }

  lemma {:induction false} BlankScript(cmds: seq<Command>)
    ensures BlankedTo(HeldIn(cmds), BodiesInScript(cmds), HeldIn(Blank(cmds)))
    decreases cmds
  {
    hide HeldInCommand;
    hide BlankCommand;
    hide BodiesInCommand;
    hide BlankedTo;
    if cmds == [] {
      NothingBlank();
    } else {
      BlankOne(cmds[0]);
      BlankScript(cmds[1..]);
      assert Blank(cmds)[1..] == Blank(cmds[1..]);
      BlanksJoin(HeldInCommand(cmds[0]), BodiesInCommand(cmds[0]), HeldInCommand(BlankCommand(cmds[0])),
                 HeldIn(cmds[1..]), BodiesInScript(cmds[1..]), HeldIn(Blank(cmds[1..])));
    }
  }

  lemma NothingBlank()
    ensures BlankedTo(Nothing, [], Nothing)
  {
  }

  lemma {:induction false} BlankOne(c: Command)
    ensures BlankedTo(HeldInCommand(c), BodiesInCommand(c), HeldInCommand(BlankCommand(c)))
    decreases c
  {
    hide HeldIn;
    hide Blank;
    hide BodiesInScript;
    hide HeldInStages;
    hide BlankStages;
    hide BodiesInStages;
    hide HeldInSimple;
    hide BlankSimple;
    hide BodiesInRedirects;
    hide BlankedTo;
    hide Join;
    match c
    case Simple(sc) => BlankOneSimple(sc);
    case Pipe(p) => BlankAllStages(p.commands);
    case And(l, r) =>
      BlankOne(l);
      BlankOne(r);
      BlanksJoin(HeldInCommand(l), BodiesInCommand(l), HeldInCommand(BlankCommand(l)),
                 HeldInCommand(r), BodiesInCommand(r), HeldInCommand(BlankCommand(r)));
    case Or(l, r) =>
      BlankOne(l);
      BlankOne(r);
      BlanksJoin(HeldInCommand(l), BodiesInCommand(l), HeldInCommand(BlankCommand(l)),
                 HeldInCommand(r), BodiesInCommand(r), HeldInCommand(BlankCommand(r)));
    case Sequence(cs) => BlankScript(cs);
    case Background(b) => BlankOne(b);
    case Subshell(cs) => BlankScript(cs);
    case Group(cs) => BlankScript(cs);
  }

  lemma {:induction false} BlankAllStages(scs: seq<SimpleCommand>)
    ensures BlankedTo(HeldInStages(scs), BodiesInStages(scs), HeldInStages(BlankStages(scs)))
    decreases |scs|
  {
    hide HeldInSimple;
    hide BlankSimple;
    hide BodiesInRedirects;
    hide BlankedTo;
    if scs == [] {
      NothingBlank();
    } else {
      BlankOneSimple(scs[0]);
      BlankAllStages(scs[1..]);
      assert BlankStages(scs)[1..] == BlankStages(scs[1..]);
      BlanksJoin(HeldInSimple(scs[0]), BodiesInRedirects(scs[0].redirects), HeldInSimple(BlankSimple(scs[0])),
                 HeldInStages(scs[1..]), BodiesInStages(scs[1..]), HeldInStages(BlankStages(scs[1..])));
    }
  }

  lemma BlankOneSimple(sc: SimpleCommand)
    ensures BlankedTo(HeldInSimple(sc), BodiesInRedirects(sc.redirects), HeldInSimple(BlankSimple(sc)))
  {
    hide HasSubst;
    hide AnyWord;
    BlankAllRedirects(sc.redirects);
    var words := Held([], AnyAssignment(sc.assignments) || (sc.name.Some? && HasSubst(sc.name.value)) || AnyWord(sc.args));
    assert BlankedTo(words, [], words);
    BlanksJoin(words, [], words, HeldInRedirects(sc.redirects), BodiesInRedirects(sc.redirects), HeldInRedirects(BlankRedirects(sc.redirects)));
    assert [] + BodiesInRedirects(sc.redirects) == BodiesInRedirects(sc.redirects);
  }

  lemma {:induction false} BlankAllRedirects(rs: seq<Redirect>)
    ensures BlankedTo(HeldInRedirects(rs), BodiesInRedirects(rs), HeldInRedirects(BlankRedirects(rs)))
    decreases |rs|
  {
    hide HeldInRedirect;
    hide BlankRedirect;
    hide BlankedTo;
    if rs == [] {
      NothingBlank();
    } else {
      var r, rest := rs[0], rs[1..];
      assert rs == [r] + rest;
      RedirectsCons(r, rest);
      BlankOneRedirect(r);
      BlankAllRedirects(rest);
      assert BlankRedirects(rs)[1..] == BlankRedirects(rest);
      BlanksJoin(HeldInRedirect(r), BodiesInRedirect(r), HeldInRedirect(BlankRedirect(r)),
                 HeldInRedirects(rest), BodiesInRedirects(rest), HeldInRedirects(BlankRedirects(rest)));
    }
  }

  lemma BlankOneRedirect(r: Redirect)
    ensures BlankedTo(HeldInRedirect(r), BodiesInRedirect(r), HeldInRedirect(BlankRedirect(r)))
  {
    hide HasSubst;
  }

  /** Filling in replaces the bodies of the first heredocs by what the queue holds, and nothing else. */
  lemma FilledDocs(parsed: seq<Command>, items: seq<QueueItem>, filled: seq<Command>)
    requires FillScript(parsed, items).Good? && FillScript(parsed, items).value == filled
    ensures HeldIn(filled).subst == HeldIn(parsed).subst && |HeldIn(filled).docs| == |HeldIn(parsed).docs|
    ensures forall k :: 0 <= k < |HeldIn(parsed).docs| ==>
              if k < |items| then BodyOf(items[k]).Good? && HeldIn(filled).docs[k] == HeldIn(parsed).docs[k].(body := BodyOf(items[k]).value)
              else HeldIn(filled).docs[k] == HeldIn(parsed).docs[k]
  {
    hide FillScript;
    hide BodyOf;
    hide HeldIn;
    hide BodiesInScript;
    hide Blank;
    hide Refilled;
    FillScriptLaw(parsed, items);
    BlankScript(parsed);
    BlankScript(filled);
    var a, b := HeldIn(parsed).docs, HeldIn(filled).docs;
    assert |BlankDocs(a)| == |BlankDocs(b)|;
    assert BodiesOfDocs(b) == Refilled(BodiesOfDocs(a), items);
    forall k | 0 <= k < |a|
      ensures if k < |items| then BodyOf(items[k]).Good? && b[k] == a[k].(body := BodyOf(items[k]).value) else b[k] == a[k]
    {
      assert BlankDocs(a)[k] == BlankDocs(b)[k];
      assert BodiesOfDocs(b)[k] == b[k].body && BodiesOfDocs(a)[k] == a[k].body;
    }
  }

  // ---------------------------------------------------------------- who gets which body

  /** The heredoc that was announced as `doc`, holding this body, or none. */
  predicate Receives(hd: Heredoc, doc: Pending, item: Option<QueueItem>) {
    match item
    case None => hd == Unfilled(doc)
    case Some(it) => BodyOf(it).Good? && hd == Unfilled(doc).(body := BodyOf(it).value)
  }

  /** The k-th heredoc receives the (k + n)-th body, or none if there is no such body. */
  predicate EachReceives(hds: seq<Heredoc>, docs: seq<Pending>, all: seq<QueueItem>, n: nat) {
    && |hds| == |docs| && n <= |all|
    && forall k :: 0 <= k < |hds| ==> Receives(hds[k], docs[k], if k + n < |all| then Some(all[k + n]) else None)
  }

  lemma {:induction false} HeardDocs(tr: seq<Event>)
    ensures |Heard(tr).docs| == |DocsIn(tr)| && (Heard(tr).subst <==> Nested in tr)
    ensures forall k :: 0 <= k < |DocsIn(tr)| ==> Heard(tr).docs[k] == Unfilled(DocsIn(tr)[k])
    decreases |tr|
  {
    hide Unfilled;
    if tr != [] {
      HeardDocs(tr[1..]);
      assert tr == [tr[0]] + tr[1..];
    }
  }

  /** For every text that parses, with any queue: the heredocs of the tree are the announced ones, in
      the order of the text, and the k-th receives the (k + n)-th of the bodies that were waiting or
      are collected, n being the number that nested scripts throw away. */
  lemma HeredocsOfEveryText(s: string, items: seq<QueueItem>)
    requires Parse(s, Free(items)).Good?
    ensures var held, tr := HeldIn(Parse(s, Free(items)).value), WalkText(s).trace;
            && (held.subst <==> Nested in tr)
            && EachReceives(held.docs, DocsIn(tr), items + BodiesIn(s, tr), Lost(|items|, tr))
  {
    hide ParseScript;
    hide FillScript;
    hide HeldIn;
    hide WalkText;
    hide BodyOf;
    hide BodiesIn;
    hide DocsIn;
    hide Heard;
    hide QueueAlong;
    hide EachReceives;
    var tr := WalkText(s).trace;
    var script := ParseScript(PS(s, [], Free(items)));
    var parsed, filled, q := script.value, Parse(s, Free(items)).value, script.st.cell.items;
    ParsingIsReading(s, items);
    QueueIsASuffix(s, items, tr);
    HeardDocs(tr);
    FilledDocs(parsed, q, filled);
    FromTheQueue(HeldIn(parsed).docs, HeldIn(filled).docs, DocsIn(tr), q, items + BodiesIn(s, tr), Lost(|items|, tr));
  }

  lemma FromTheQueue(a: seq<Heredoc>, b: seq<Heredoc>, docs: seq<Pending>, q: seq<QueueItem>, all: seq<QueueItem>, n: nat)
    requires n <= |all| && q == all[n..] && |a| == |b| == |docs|
    requires forall k :: 0 <= k < |docs| ==> a[k] == Unfilled(docs[k])
    requires forall k :: 0 <= k < |a| ==>
               if k < |q| then BodyOf(q[k]).Good? && b[k] == a[k].(body := BodyOf(q[k]).value) else b[k] == a[k]
    ensures EachReceives(b, docs, all, n)
  {
    hide BodyOf;
    hide Unfilled;
    forall k | 0 <= k < |b| ensures Receives(b[k], docs[k], if k + n < |all| then Some(all[k + n]) else None) {
      assert a[k] == Unfilled(docs[k]);
      if k + n < |all| { assert q[k] == all[k + n]; }
    }
  }

  /** Every heredoc has the body collected for it, or none if none was. */
  predicate EachHasItsOwn(hds: seq<Heredoc>, docs: seq<Pending>, own: seq<QueueItem>) {
    && |own| <= |hds| == |docs|
    && forall k :: 0 <= k < |hds| ==> Receives(hds[k], docs[k], if k < |own| then Some(own[k]) else None)
  }

  /** Starting with nothing in the queue: when no nested script is read behind a collected body, every
      heredoc has its own. Otherwise n bodies are lost, the k-th heredoc has the body of the one n
      further on, and the last n whose bodies were collected have none. */
  lemma WhoHasItsOwn(s: string)
    requires Parse(s, Free([])).Good?
    ensures var hds, tr := HeldIn(Parse(s, Free([])).value).docs, WalkText(s).trace;
            var docs, own, n := DocsIn(tr), BodiesIn(s, tr), Lost(0, tr);
            && (n == 0 <==> Undisturbed(0, tr))
            && (Undisturbed(0, tr) ==> EachHasItsOwn(hds, docs, own))
            && n <= |own| <= |hds| == |docs|
            && (forall k :: 0 <= k < |own| - n ==> Receives(hds[k], docs[k], Some(own[k + n])))
            && (forall k :: |own| - n <= k < |hds| ==> hds[k] == Unfilled(docs[k]))
  {
    hide Parse;
    hide HeldIn;
    hide WalkText;
    hide BodyOf;
    hide DocsIn;
    hide Lost;
    hide Undisturbed;
    hide Walk;
    hide Places;
    var none: seq<QueueItem> := [];
    var tr := WalkText(s).trace;
    HeredocsOfEveryText(s, none);
    assert none + BodiesIn(s, tr) == BodiesIn(s, tr);
    NothingLost(0, tr);
    BodiesOfText(s);
  }

  /** The bodies of a text: at most as many as heredocs, each for its heredoc and on lines of its own. */
  lemma BodiesOfText(s: string)
    ensures var p := WalkText(s);
            var ps, docs := Places(p.trace), DocsIn(p.trace);
            && |ps| <= |docs| && p.pend == docs[|ps|..] && Placed(s, ps, 0, p.stop)
            && forall k :: 0 <= k < |ps| ==> ps[k].doc == docs[k]
  {
    hide Walk;
    hide Places;
    hide DocsIn;
    hide Placed;
    BodiesStandInOrder(s, Spot(0, false, 0, []));
    var p := WalkText(s);
    var ps, docs := Places(p.trace), DocsIn(p.trace);
    assert [] + docs == docs;
    assert Owners(p.trace) + p.pend == docs;
    forall k | 0 <= k < |ps| ensures ps[k].doc == docs[k] {
      assert Owners(p.trace)[k] == docs[k];
    }
  }

  /** A heredoc whose body is the verbatim lines at this place, up to the line that ends them. */
  ghost predicate HasLinesAt(s: string, hd: Heredoc, e: Event)
    requires e.Collected? && e.at <= |s|
  {
    exists d: Doc :: WfDoc(d) && d.p == e.doc && Takes(s[e.at..], EndOf(s, e) - e.at, d) &&
                     Receives(hd, e.doc, Some(QueueItem(d.p.quoted, Verbatim(d.lines))))
  }

  /** In a script whose words hold no command substitution, every heredoc whose line is ended has the
      verbatim lines at its own place in the text, and every other one has none. */
  lemma WithoutSubstitutionsAllGetTheirOwn(s: string)
    requires Parse(s, Free([])).Good? && !HeldIn(Parse(s, Free([])).value).subst
    ensures var hds, tr := HeldIn(Parse(s, Free([])).value).docs, WalkText(s).trace;
            var ps := Places(tr);
            && |ps| <= |hds| == |DocsIn(tr)|
            && (forall k :: 0 <= k < |ps| ==> Stands(s, ps[k]) && ps[k].doc == DocsIn(tr)[k] && HasLinesAt(s, hds[k], ps[k]))
            && (forall k :: |ps| <= k < |hds| ==> hds[k] == Unfilled(DocsIn(tr)[k]))
  {
    hide Parse;
    hide HeldIn;
    hide WalkText;
    hide BodyOf;
    hide DocsIn;
    hide Walk;
    hide Places;
    hide ItemAt;
    hide OneBody;
    hide HasLinesAt;
    var tr := WalkText(s).trace;
    var hds, ps := HeldIn(Parse(s, Free([])).value).docs, Places(tr);
    assert [] + BodiesIn(s, tr) == BodiesIn(s, tr);
    HeredocsOfEveryText(s, []);
    WhoHasItsOwn(s);
    assert Undisturbed(0, tr);
    BodiesOfText(s);
    forall k | 0 <= k < |ps| ensures Stands(s, ps[k]) && ps[k].doc == DocsIn(tr)[k] && HasLinesAt(s, hds[k], ps[k]) {
      assert Stands(s, ps[k]);
      assert Receives(hds[k], DocsIn(tr)[k], Some(BodiesIn(s, tr)[k]));
      LinesThere(s, hds[k], ps[k]);
    }
  }

  lemma LinesThere(s: string, hd: Heredoc, e: Event)
    requires Stands(s, e) && Receives(hd, e.doc, Some(ItemAt(s, e)))
    ensures HasLinesAt(s, hd, e)
  {
    hide OneBody;
    hide BodyOf;
    hide Verbatim;
    hide WfDoc;
    hide Takes;
    var d := BodyIsVerbatim(s[e.at..], e.doc);
    assert ItemAt(s, e) == QueueItem(d.p.quoted, Verbatim(d.lines));
  }

  /** Bodies that an earlier parse left waiting go first: without substitutions the first heredocs of
      a text get them, and its own bodies come after. */
  lemma WaitingBodiesGoFirst(s: string, items: seq<QueueItem>)
    requires Parse(s, Free(items)).Good? && !HeldIn(Parse(s, Free(items)).value).subst
    ensures var tr := WalkText(s).trace;
            EachReceives(HeldIn(Parse(s, Free(items)).value).docs, DocsIn(tr), items + BodiesIn(s, tr), 0)
  {
    hide Parse;
    hide HeldIn;
    hide EachReceives;
    hide Walk;
    var tr := WalkText(s).trace;
    HeredocsOfEveryText(s, items);
    NothingLost(|items|, tr);
    assert Undisturbed(|items|, tr);
  }
}
