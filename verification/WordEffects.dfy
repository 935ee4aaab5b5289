/** What reading a word does to the thread's heredoc queue: every command substitution that is parsed
    empties it, and nothing else touches it. */
module WordEffects {
  import opened Ast
  import opened Decimal
  import opened LexSpec
  import opened ParseSpec

  // ---------------------------------------------------------------- substitutions in a tree

  predicate HasSubst(w: Word)
    decreases w
  {
    match w
    case CommandSubst(_) => true
    case DoubleQuoted(ps) => AnyPart(ps)
    case Variable(v) => VarHasSubst(v)
    case Concat(ws) => AnyWord(ws)
    case _ => false
  }

  predicate AnyWord(ws: seq<Word>)
    decreases ws
  {
    ws != [] && (HasSubst(ws[0]) || AnyWord(ws[1..]))
  }

  predicate PartHasSubst(p: DQPart)
    decreases p
  {
    p.DQCommandSubst? || (p.DQVariable? && VarHasSubst(p.v))
  }

  predicate AnyPart(ps: seq<DQPart>)
    decreases ps
  {
    ps != [] && (PartHasSubst(ps[0]) || AnyPart(ps[1..]))
  }

  predicate VarHasSubst(v: VarExpr)
    decreases v
  {
    match v
    case DefaultIfUnset(_, w) => HasSubst(w)
    case AssignIfUnset(_, w) => HasSubst(w)
    case AlternateIfSet(_, w) => HasSubst(w)
    case ErrorIfUnset(_, w) => HasSubst(w)
    case _ => false
  }

  lemma {:induction false} AnyWordConcat(a: seq<Word>, b: seq<Word>)
    ensures AnyWord(a + b) <==> AnyWord(a) || AnyWord(b)
  {
    if a == [] {
      assert a + b == b;
    } else {
      assert (a + b)[0] == a[0] && (a + b)[1..] == a[1..] + b;
      AnyWordConcat(a[1..], b);
    }
  }

  lemma {:induction false} AnyPartConcat(a: seq<DQPart>, b: seq<DQPart>)
    ensures AnyPart(a + b) <==> AnyPart(a) || AnyPart(b)
  {
    if a == [] {
      assert a + b == b;
    } else {
      assert (a + b)[0] == a[0] && (a + b)[1..] == a[1..] + b;
      AnyPartConcat(a[1..], b);
    }
  }

  // ---------------------------------------------------------------- effects

  /** Substitutions empty the queue; they can only have been parsed while nobody else held it. */
  predicate Effect(before: Cell, after: Cell, subst: bool) {
    after == (if subst then Free([]) else before) && (subst ==> before.Free?)
  }

  predicate Suffix(t: string, s: string) {
    |t| <= |s| && s[|s| - |t|..] == t
  }

  lemma SuffixTrans(a: string, b: string, c: string)
    requires Suffix(a, b) && Suffix(b, c)
    ensures Suffix(a, c)
  {
    assert c[|c| - |a|..] == c[|c| - |b|..][|b| - |a|..];
  }

  lemma DropIsSuffix(s: string, n: nat)
    requires n <= |s|
    ensures Suffix(s[n..], s)
  {
  }

  lemma {:induction false} DollarEffect(s: string, cell: Cell)
    requires s != ""
    ensures var r := ParseDollar(s, cell); r.Good? ==> Effect(cell, r.st, HasSubst(r.value.word))
    decreases |s|, 3
  {
    hide Parse;
    hide Extract;
    hide Trim;
    hide NameRun;
    hide ParseBraceVar;
    if |s| > 1 && s[1] == '{' { BraceEffect(s[2..], cell); }
  }

  lemma {:induction false} BraceEffect(s: string, cell: Cell)
    ensures var r := ParseBraceVar(s, cell); r.Good? ==> Effect(cell, r.st, VarHasSubst(r.value.0))
    decreases |s|, 2
  {
    hide WordOf;
    hide FindVarOperator;
    hide Before;
    var close := Before(s, '}');
    if close < |s| && s[..close] != "" && !(s[0] == '#' && IsValidName(s[..close][1..])) {
      var inner := s[..close];
      match FindVarOperator(inner, 0)
      case None =>
      case Some(op) => WordEffect(inner[(if inner[op] == ':' then op + 1 else op) + 1..], cell);
    }
  }

  lemma BacktickEffect(s: string, cell: Cell)
    requires s != ""
    ensures var r := ParseBacktick(s, cell); r.Good? ==> Effect(cell, r.st, HasSubst(r.value.word))
  {
    hide Parse;
    hide Trim;
    hide Before;
  }

  lemma {:induction false} WordEffect(s: string, cell: Cell)
    ensures var r := WordOf(s, cell); r.Good? ==> Effect(cell, r.st, HasSubst(r.value))
    decreases |s|, 5
  {
    hide WordParts;
    PartsEffect(s, "", cell);
    var r := WordParts(s, "", cell);
    if r.Good? { SimplifyHas(r.value); }
  }

  lemma SimplifyHas(parts: seq<Word>)
    ensures HasSubst(Simplify(parts)) <==> AnyWord(parts)
  {
    if |parts| == 1 { assert parts[1..] == []; }
  }

  lemma PendingHasNone(literal: string)
    ensures !AnyWord(Pending0(literal)) && !AnyPart(PendingDq(literal))
  {
  }

  /** An expansion in the middle of a word. */
  lemma ExpansionEffect(literal: string, w: Word, more: seq<Word>, a: Cell, b: Cell, c: Cell)
    requires Effect(a, b, HasSubst(w)) && Effect(b, c, AnyWord(more))
    ensures Effect(a, c, AnyWord(Pending0(literal) + [w] + more))
  {
    hide HasSubst;
    PendingHasNone(literal);
    AnyWordConcat(Pending0(literal) + [w], more);
    AnyWordConcat(Pending0(literal), [w]);
    assert [w][1..] == [];
  }

  lemma DqExpansionEffect(literal: string, w: Word, more: seq<DQPart>, a: Cell, b: Cell, c: Cell)
    requires Effect(a, b, HasSubst(w)) && Effect(b, c, AnyPart(more))
    requires w.Literal? || w.Variable? || w.CommandSubst? || w.ArithSubst?
    ensures Effect(a, c, AnyPart(PendingDq(literal) + [ToDqPart(w)] + more))
  {
    PendingHasNone(literal);
    AnyPartConcat(PendingDq(literal) + [ToDqPart(w)], more);
    AnyPartConcat(PendingDq(literal), [ToDqPart(w)]);
    assert [ToDqPart(w)][1..] == [];
    assert PartHasSubst(ToDqPart(w)) <==> HasSubst(w);
  }

  lemma {:induction false} PartsEffect(s: string, literal: string, cell: Cell)
    ensures var r := WordParts(s, literal, cell); r.Good? ==> Effect(cell, r.st, AnyWord(r.value))
    decreases |s|, 4
  {
    hide ParseDollar;
    hide ParseBacktick;
    hide HasSubst;
    PendingHasNone(literal);
    if s == "" {
    } else if s[0] == '\\' {
      if |s| > 1 { PartsEffect(s[2..], if s[1] == '\n' then literal else literal + [s[1]], cell); }
    } else if s[0] == '$' || s[0] == '`' {
      var d := if s[0] == '$' then ParseDollar(s, cell) else ParseBacktick(s, cell);
      if s[0] == '$' { DollarEffect(s, cell); } else { BacktickEffect(s, cell); }
      if d.Good? {
        PartsEffect(s[d.value.len..], "", d.st);
        var more := WordParts(s[d.value.len..], "", d.st);
        if more.Good? { ExpansionEffect(literal, d.value.word, more.value, cell, d.st, more.st); }
      }
    } else {
      PartsEffect(s[1..], literal + [s[0]], cell);
    }
  }

  /** What an expansion can be. */
  lemma DollarWord(s: string, cell: Cell)
    requires s != ""
    ensures var r := ParseDollar(s, cell);
            r.Good? ==> r.value.word.Literal? || r.value.word.Variable? || r.value.word.CommandSubst? || r.value.word.ArithSubst?
    ensures var r := ParseBacktick(s, cell); r.Good? ==> r.value.word.CommandSubst?
  {
    hide Parse;
    hide Extract;
    hide Trim;
    hide NameRun;
    hide ParseBraceVar;
    hide Before;
  }

  lemma {:induction false} DqPartsEffect(s: string, literal: string, cell: Cell)
    ensures var r := DqWordParts(s, literal, cell); r.Good? ==> Effect(cell, r.st, AnyPart(r.value))
    decreases |s|, 4
  {
    hide ParseDollar;
    hide ParseBacktick;
    hide HasSubst;
    PendingHasNone(literal);
    if s == "" {
    } else if s[0] == '$' || s[0] == '`' {
      var d := if s[0] == '$' then ParseDollar(s, cell) else ParseBacktick(s, cell);
      if s[0] == '$' { DollarEffect(s, cell); } else { BacktickEffect(s, cell); }
      DollarWord(s, cell);
      if d.Good? {
        DqPartsEffect(s[d.value.len..], "", d.st);
        var more := DqWordParts(s[d.value.len..], "", d.st);
        if more.Good? { DqExpansionEffect(literal, d.value.word, more.value, cell, d.st, more.st); }
      }
    } else {
      DqPartsEffect(s[1..], literal + [s[0]], cell);
    }
  }

  lemma LiteralHasNone(s: string)
    ensures !AnyPart([DQLiteral(s)])
  {
    assert [DQLiteral(s)][1..] == [];
  }

  lemma OneWord(w: Word)
    ensures AnyWord([w]) <==> HasSubst(w)
  {
    hide HasSubst;
    assert [w][1..] == [];
  }

  // ---------------------------------------------------------------- bodies

  /** The first body, and the others behind it. */
  lemma BodiesOf(t: string, pend: seq<Pending>)
    requires pend != [] && AllBodies(t, pend).Bodies?
    ensures OneBody(t, pend[0]).Bodies? && AllBodies(t[OneBody(t, pend[0]).len..], pend[1..]).Bodies?
    ensures var one := OneBody(t, pend[0]);
            var more := AllBodies(t[one.len..], pend[1..]);
            AllBodies(t, pend) == Bodies([one.bodies[0]] + more.bodies, one.len + more.len)
  {
    hide OneBody;
    var one := OneBody(t, pend[0]);
    assert one.bodies == [one.bodies[0]];
  }
}
