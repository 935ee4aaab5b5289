/** Where a text holds command substitutions, read off its characters alone, and that this is where the
    parser finds them. */
module Nesting {
  import opened Ast
  import opened Decimal
  import opened LexSpec
  import opened ParseSpec
  import opened WordEffects

  /** Whether a `$` at the start of a text introduces something with a command substitution in it,
      and how far it reaches. Behind a command substitution nothing more needs to be looked at. */
  function DollarNests(s: string): (r: (bool, nat))
    requires s != ""
    ensures 0 < r.1 <= |s|
    decreases |s|, 1
  {
    if |s| == 1 then (false, 1)
    else if s[1] == '(' then
      if Parenthesis(s, 2) then
        match Extract(s[3..], 1, "))")
        case None => (false, |s|)
        case Some((_, used)) => (false, 3 + used)
      else (true, |s|)
    else if s[1] == '{' then
      var close := Before(s[2..], '}');
      if close == |s| - 2 then (false, |s|) else (OperandNests(s[2..][..close]), close + 3)
    else if IsDigit(s[1]) || IsSpecialVarChar(s[1]) then (false, 2)
    else (false, 1 + NameRun(s[1..]))
  }

  /** The same for the inside of `${...}`. */
  predicate OperandNests(inner: string)
    decreases |inner|, 1
  {
    && inner != "" && !(inner[0] == '#' && IsValidName(inner[1..]))
    && match FindVarOperator(inner, 0)
       case None => false
       case Some(op) => Nests(inner[(if inner[op] == ':' then op + 1 else op) + 1..], false)
  }

  /** Whether a word's text, outside (`dq` false) or inside double quotes, holds a command
      substitution that is not escaped. */
  predicate Nests(s: string, dq: bool)
    decreases |s|, 2
  {
    if s == "" then false
    else if s[0] == '\\' && !dq then |s| > 1 && Nests(s[2..], dq)
    else if s[0] == '$' then DollarNests(s).0 || Nests(s[DollarNests(s).1..], dq)
    else s[0] == '`' || Nests(s[1..], dq)
  }

  /** Characters that mean nothing in a word. */
  predicate IsPlainText(s: string) {
    forall c :: c in s ==> c !in "\\$`"
  }

  lemma {:induction false} PlainNestsNothing(a: string, b: string, dq: bool)
    requires IsPlainText(a)
    ensures Nests(a + b, dq) <==> Nests(b, dq)
    decreases |a|
  {
    hide DollarNests;
    if a == "" {
      assert a + b == b;
    } else {
      assert a[0] in a && (a + b)[1..] == a[1..] + b;
      PlainNestsNothing(a[1..], b, dq);
    }
  }

  /** What is read is what the text says, for every queue. */
  lemma {:induction false} DollarNestsExactly(s: string, cell: Cell)
    requires s != "" && s[0] == '$'
    ensures var r := ParseDollar(s, cell);
            r.Good? ==> (HasSubst(r.value.word) <==> DollarNests(s).0) && (!DollarNests(s).0 ==> r.value.len == DollarNests(s).1)
    decreases |s|, 3
  {
    hide Parse;
    hide Extract;
    hide Trim;
    hide NameRun;
    hide ParseBraceVar;
    hide OperandNests;
    if |s| > 1 && s[1] == '{' { BraceNestsExactly(s[2..], cell); }
  }

  lemma {:induction false} BraceNestsExactly(s: string, cell: Cell)
    ensures var r := ParseBraceVar(s, cell);
            r.Good? ==> r.value.1 == Before(s, '}') < |s| && (VarHasSubst(r.value.0) <==> OperandNests(s[..r.value.1]))
    decreases |s|, 2
  {
    hide WordOf;
    hide FindVarOperator;
    hide Before;
    hide Nests;
    hide IsValidName;
    var close := Before(s, '}');
    if close < |s| && s[..close] != "" && !(s[0] == '#' && IsValidName(s[..close][1..])) {
      var inner := s[..close];
      match FindVarOperator(inner, 0)
      case None =>
      case Some(op) => WordNestsExactly(inner[(if inner[op] == ':' then op + 1 else op) + 1..], cell);
    }
  }

  lemma {:induction false} WordNestsExactly(s: string, cell: Cell)
    ensures var r := WordOf(s, cell); r.Good? ==> (HasSubst(r.value) <==> Nests(s, false))
    decreases |s|, 5
  {
    hide WordParts;
    hide Nests;
    PartsNestExactly(s, "", cell);
    var r := WordParts(s, "", cell);
    if r.Good? { SimplifyHas(r.value); }
  }

  lemma {:induction false} PartsNestExactly(s: string, literal: string, cell: Cell)
    ensures var r := WordParts(s, literal, cell); r.Good? ==> (AnyWord(r.value) <==> Nests(s, false))
    decreases |s|, 4
  {
    hide ParseDollar;
    hide ParseBacktick;
    hide HasSubst;
    hide DollarNests;
    PendingHasNone(literal);
    if s == "" {
    } else if s[0] == '\\' {
      if |s| > 1 { PartsNestExactly(s[2..], if s[1] == '\n' then literal else literal + [s[1]], cell); }
    } else if s[0] == '$' || s[0] == '`' {
      var d := if s[0] == '$' then ParseDollar(s, cell) else ParseBacktick(s, cell);
      if s[0] == '$' { DollarNestsExactly(s, cell); } else { BacktickNests(s, cell); }
      if d.Good? {
        var rest := s[d.value.len..];
        PartsNestExactly(rest, "", d.st);
        var more := WordParts(rest, "", d.st);
        if more.Good? { AnyInTheMiddle(literal, d.value.word, more.value); }
      }
    } else {
      PartsNestExactly(s[1..], literal + [s[0]], cell);
    }
  }

  lemma BacktickNests(s: string, cell: Cell)
    requires s != ""
    ensures var r := ParseBacktick(s, cell); r.Good? ==> HasSubst(r.value.word)
  {
    hide Parse;
    hide Trim;
    hide Before;
  }

  lemma AnyInTheMiddle(literal: string, w: Word, more: seq<Word>)
    ensures AnyWord(Pending0(literal) + [w] + more) <==> HasSubst(w) || AnyWord(more)
  {
    hide HasSubst;
    PendingHasNone(literal);
    AnyWordConcat(Pending0(literal) + [w], more);
    AnyWordConcat(Pending0(literal), [w]);
    OneWord(w);
  }

  lemma AnyInTheMiddleDq(literal: string, w: Word, more: seq<DQPart>)
    requires w.Literal? || w.Variable? || w.CommandSubst? || w.ArithSubst?
    ensures AnyPart(PendingDq(literal) + [ToDqPart(w)] + more) <==> HasSubst(w) || AnyPart(more)
  {
    PendingHasNone(literal);
    AnyPartConcat(PendingDq(literal) + [ToDqPart(w)], more);
    AnyPartConcat(PendingDq(literal), [ToDqPart(w)]);
    assert [ToDqPart(w)][1..] == [];
    assert PartHasSubst(ToDqPart(w)) <==> HasSubst(w);
  }

  lemma {:induction false} DqPartsNestExactly(s: string, literal: string, cell: Cell)
    ensures var r := DqWordParts(s, literal, cell); r.Good? ==> (AnyPart(r.value) <==> Nests(s, true))
    decreases |s|
  {
    hide ParseDollar;
    hide ParseBacktick;
    hide HasSubst;
    hide DollarNests;
    PendingHasNone(literal);
    if s == "" {
    } else if s[0] == '$' || s[0] == '`' {
      var d := if s[0] == '$' then ParseDollar(s, cell) else ParseBacktick(s, cell);
      if s[0] == '$' { DollarNestsExactly(s, cell); } else { BacktickNests(s, cell); }
      DollarWord(s, cell);
      if d.Good? {
        var rest := s[d.value.len..];
        DqPartsNestExactly(rest, "", d.st);
        var more := DqWordParts(rest, "", d.st);
        if more.Good? { AnyInTheMiddleDq(literal, d.value.word, more.value); }
      }
    } else {
      DqPartsNestExactly(s[1..], literal + [s[0]], cell);
    }
  }

  /** The name and the `=` in front of an assigned value mean nothing here. */
  lemma AssignmentNests(text: string)
    requires SplitAssignment(text).Some?
    ensures Nests(text, false) <==> Nests(SplitAssignment(text).value.1, false)
  {
    hide Nests;
    var eq := Before(text, '=');
    assert text == text[..eq + 1] + text[eq + 1..];
    PlainNestsNothing(text[..eq + 1], text[eq + 1..], false);
  }

  lemma NumbersNestNothing(text: string)
    requires text == "-" || ParseU32(text).Some?
    ensures !Nests(text, false)
  {
    assert text == text + "";
    if text != "-" && text != "" { assert forall i :: 1 <= i < |text| ==> IsDigit(text[i]); }
    PlainNestsNothing(text, "", false);
  }
}
