/** The arithmetic evaluator behind `$((...))`: machine arithmetic, the grammar the operators
    are meant to follow, and the Pratt evaluator that computes a value while it parses.

    Rust's `i64` operators panic on overflow in a debug build and wrap in a release build, so
    every result is stated for both build profiles. */
module Arith {
  import opened Decimal

  const MIN_I64: int := -0x8000_0000_0000_0000
  const MAX_I64: int := 0x7FFF_FFFF_FFFF_FFFF

  type i64 = x: int | MIN_I64 <= x <= MAX_I64

  datatype Profile = Debug | Release

  datatype ArithError =
    | BadNumber
    | UnexpectedChar(c: char)
    | UnexpectedToken(pos: nat)
    | ExpectedOperand
    | ExpectedCloseParen
    | DivisionByZero
    | ModuloByZero

  /** `Ok` and `Err` are the two sides of the source's `Result`; `Panic` is an aborting overflow. */
  datatype Outcome<+T> = Ok(value: T) | Err(error: ArithError) | Panic {
    predicate IsFailure() { !Ok? }

    function PropagateFailure<U>(): Outcome<U>
      requires !Ok?
    {
      match this
      case Err(e) => Err(e)
      case Panic => Panic
    }

    function Extract(): T
      requires Ok?
    {
      value
    }
  }

  datatype Tok = Num(n: i64) | Plus | Minus | Star | Slash | Percent | StarStar | LParen | RParen

  datatype Op = Add | Sub | Mul | Div | Rem | Pow

  // ---------------------------------------------------------------- machine arithmetic

  function Abs(x: int): nat {
    if x < 0 then -x else x
  }

  /** Division that truncates toward zero, as Rust's `/` does. */
  function TruncDiv(a: int, b: int): int
    requires b != 0
  {
    var q := Abs(a) / Abs(b);
    if (a < 0) != (b < 0) then -q else q
  }

  /** The remainder that goes with `TruncDiv`; it takes the sign of the dividend. */
  function TruncRem(a: int, b: int): int
    requires b != 0
  {
    var r := Abs(a) % Abs(b);
    if a < 0 then -r else r
  }

  lemma TruncDivision(a: int, b: int)
    requires b != 0
    ensures a == b * TruncDiv(a, b) + TruncRem(a, b)
    ensures Abs(TruncRem(a, b)) < Abs(b)
    ensures TruncRem(a, b) != 0 ==> (TruncRem(a, b) < 0 <==> a < 0)
  {
    var q, r := Abs(a) / Abs(b), Abs(a) % Abs(b);
    assert Abs(a) == Abs(b) * q + r;
    assert b * -q == -(b * q);
  }

  function Power(b: int, e: nat): int {
    if e == 0 then 1 else b * Power(b, e - 1)
  }

  function Wrap(x: int): i64 {
    (x - MIN_I64) % 0x1_0000_0000_0000_0000 + MIN_I64
  }

  /** What a checked-or-wrapping operator does with the exact mathematical result `x`. */
  function Settle(p: Profile, x: int): Outcome<i64> {
    if MIN_I64 <= x <= MAX_I64 then Ok(x)
    else match p
      case Debug => Panic
      case Release => Ok(Wrap(x))
  }

  /** `i64::MIN / -1` and `i64::MIN % -1` panic in every profile. */
  function ApplyBinop(p: Profile, op: Op, l: i64, r: i64): Outcome<i64> {
    match op
    case Add => Settle(p, l + r)
    case Sub => Settle(p, l - r)
    case Mul => Settle(p, l * r)
    case Div =>
      if r == 0 then Err(DivisionByZero)
      else if l == MIN_I64 && r == -1 then Panic
      else Settle(p, TruncDiv(l, r))
    case Rem =>
      if r == 0 then Err(ModuloByZero)
      else if l == MIN_I64 && r == -1 then Panic
      else Settle(p, TruncRem(l, r))
    case Pow =>
      if r < 0 then Ok(0) else Settle(p, Power(l, r % 0x1_0000_0000))
  }

  // ---------------------------------------------------------------- the grammar

  /** Derivation trees. `Group` is a parenthesised expression. */
  datatype Expr =
    | Lit(n: i64)
    | Neg(e: Expr)
    | Pos(e: Expr)
    | Group(e: Expr)
    | Bin(op: Op, l: Expr, r: Expr)

  /** U -> - U | + U | num | ( E ) */
  predicate IsU(e: Expr)
    decreases e, 0
  {
    match e
    case Lit(_) => true
    case Neg(x) => IsU(x)
    case Pos(x) => IsU(x)
    case Group(x) => IsE(x)
    case Bin(_, _, _) => false
  }

  /** F -> U ** F | U */
  predicate IsF(e: Expr)
    decreases e, 1
  {
    if e.Bin? then e.op.Pow? && IsU(e.l) && IsF(e.r) else IsU(e)
  }

  /** T -> T (* | / | %) F | F */
  predicate IsT(e: Expr)
    decreases e, 2
  {
    if e.Bin? && !e.op.Pow? then (e.op.Mul? || e.op.Div? || e.op.Rem?) && IsT(e.l) && IsF(e.r) else IsF(e)
  }

  /** E -> E (+ | -) T | T */
  predicate IsE(e: Expr)
    decreases e, 3
  {
    if e.Bin? && (e.op.Add? || e.op.Sub?) then IsE(e.l) && IsT(e.r) else IsT(e)
  }

  function OpTok(op: Op): Tok {
    match op
    case Add => Plus
    case Sub => Minus
    case Mul => Star
    case Div => Slash
    case Rem => Percent
    case Pow => StarStar
  }

  /** The tokens a tree derives, in order. */
  function Yield(e: Expr): seq<Tok> {
    match e
    case Lit(n) => [Num(n)]
    case Neg(x) => [Minus] + Yield(x)
    case Pos(x) => [Plus] + Yield(x)
    case Group(x) => [LParen] + Yield(x) + [RParen]
    case Bin(op, l, r) => Yield(l) + [OpTok(op)] + Yield(r)
  }

  /** The value of a tree, operands left to right, the first failure winning. */
  function Eval(p: Profile, e: Expr): Outcome<i64> {
    match e
    case Lit(n) => Ok(n)
    case Neg(x) =>
      var v :- Eval(p, x);
      Settle(p, 0 - v)
    case Pos(x) => Eval(p, x)
    case Group(x) => Eval(p, x)
    case Bin(op, l, r) =>
      var a :- Eval(p, l);
      var b :- Eval(p, r);
      ApplyBinop(p, op, a, b)
  }

  // ---------------------------------------------------------------- the tree a Pratt parse stands for

  datatype Option<+T> = None | Some(value: T)

  datatype Parse = Tree(e: Expr, rest: seq<Tok>) | NoTree

  /** The operator a token stands for, with its left and right binding power. */
  function Binding(t: Tok): Option<(Op, nat, nat)> {
    match t
    case Plus => Some((Add, 10, 11))
    case Minus => Some((Sub, 10, 11))
    case Star => Some((Mul, 20, 21))
    case Slash => Some((Div, 20, 21))
    case Percent => Some((Rem, 20, 21))
    case StarStar => Some((Pow, 30, 29))
    case _ => None
  }

  function ParseE(ts: seq<Tok>, minBp: nat): (r: Parse)
    ensures r.Tree? ==> |r.rest| < |ts|
    decreases |ts|, 1
  {
    match ParsePrefixTree(ts)
    case NoTree => NoTree
    case Tree(lhs, rest) => ParseLoop(lhs, rest, minBp)
  }

  function ParseLoop(lhs: Expr, ts: seq<Tok>, minBp: nat): (r: Parse)
    ensures r.Tree? ==> |r.rest| <= |ts|
    decreases |ts|, 2
  {
    if ts == [] || Binding(ts[0]).None? || Binding(ts[0]).value.1 < minBp then Tree(lhs, ts)
    else
      match ParseE(ts[1..], Binding(ts[0]).value.2)
      case NoTree => NoTree
      case Tree(rhs, rest) => ParseLoop(Bin(Binding(ts[0]).value.0, lhs, rhs), rest, minBp)
  }

  function ParsePrefixTree(ts: seq<Tok>): (r: Parse)
    ensures r.Tree? ==> |r.rest| < |ts|
    decreases |ts|, 0
  {
    if ts == [] then NoTree else
    match ts[0]
    case Num(n) => Tree(Lit(n), ts[1..])
    case Minus =>
      (match ParsePrefixTree(ts[1..])
       case NoTree => NoTree
       case Tree(x, rest) => Tree(Neg(x), rest))
    case Plus =>
      (match ParsePrefixTree(ts[1..])
       case NoTree => NoTree
       case Tree(x, rest) => Tree(Pos(x), rest))
    case LParen =>
      (match ParseE(ts[1..], 0)
       case NoTree => NoTree
       case Tree(x, rest) => if rest != [] && rest[0] == RParen then Tree(Group(x), rest[1..]) else NoTree)
    case _ => NoTree
  }

  /** The tree of a whole token list, if the Pratt parse uses every token. */
  function TreeOf(ts: seq<Tok>): Option<Expr> {
    match ParseE(ts, 0)
    case Tree(e, rest) => if rest == [] then Some(e) else None
    case NoTree => None
  }

  // ---------------------------------------------------------------- soundness: a parse is a derivation

  /** The nonterminal a minimum binding power asks for. */
  predicate AtPower(minBp: nat, e: Expr) {
    if minBp <= 10 then IsE(e) else if minBp <= 20 then IsT(e) else if minBp <= 30 then IsF(e) else IsU(e)
  }

  /** Does the token list open with an operator that a loop at `minBp` would take? */
  predicate Continues(ts: seq<Tok>, minBp: nat) {
    ts != [] && Binding(ts[0]).Some? && Binding(ts[0]).value.1 >= minBp
  }

  /** The right binding power of a tree's top operator; 100 when there is none. */
  function TopRbp(e: Expr): nat {
    if e.Bin? then Binding(OpTok(e.op)).value.2 else 100
  }

  /** The four nonterminals, read off a tree's top operator. */
  lemma TopOperator(e: Expr)
    ensures IsU(e) ==> IsF(e)
    ensures IsF(e) ==> IsT(e)
    ensures IsT(e) ==> IsE(e)
    ensures !e.Bin? ==> (IsE(e) <==> IsU(e))
    ensures e.Bin? && e.op.Pow? ==> (IsE(e) <==> IsU(e.l) && IsF(e.r))
    ensures e.Bin? && (e.op.Mul? || e.op.Div? || e.op.Rem?) ==> (IsE(e) <==> IsT(e.l) && IsF(e.r)) && !IsF(e)
    ensures e.Bin? && (e.op.Add? || e.op.Sub?) ==> (IsE(e) <==> IsE(e.l) && IsT(e.r)) && !IsT(e)
  {
  }

  lemma GroupYields(ts: seq<Tok>, x: Expr, rest: seq<Tok>)
    requires ts != [] && ts[0] == LParen && ts[1..] == Yield(x) + rest && rest != [] && rest[0] == RParen
    ensures Yield(Group(x)) + rest[1..] == ts
  {
    assert rest == [RParen] + rest[1..];
    assert ts == [LParen] + ts[1..];
    assert [LParen] + (Yield(x) + ([RParen] + rest[1..])) == ([LParen] + Yield(x) + [RParen]) + rest[1..];
  }

  lemma {:induction false} PrefixSound(ts: seq<Tok>)
    ensures var r := ParsePrefixTree(ts); r.Tree? ==> IsU(r.e) && Yield(r.e) + r.rest == ts
    decreases |ts|, 0
  {
    hide ParseE;
    if ts != [] {
      match ts[0]
      case Num(n) => assert ts == [ts[0]] + ts[1..];
      case Minus => PrefixSound(ts[1..]); assert ts == [ts[0]] + ts[1..];
      case Plus => PrefixSound(ts[1..]); assert ts == [ts[0]] + ts[1..];
      case LParen =>
        ExprSound(ts[1..], 0);
        match ParseE(ts[1..], 0) {
          case NoTree =>
          case Tree(x, rest) =>
            if rest != [] && rest[0] == RParen { GroupYields(ts, x, rest); }
        }
      case _ =>
    }
  }

  lemma {:induction false} ExprSound(ts: seq<Tok>, minBp: nat)
    requires minBp <= 30
    ensures var r := ParseE(ts, minBp);
            r.Tree? ==> AtPower(minBp, r.e) && Yield(r.e) + r.rest == ts && !Continues(r.rest, minBp)
    decreases |ts|, 1
  {
    PrefixSound(ts);
    match ParsePrefixTree(ts)
    case NoTree =>
    case Tree(lhs, rest) =>
      TopOperator(lhs);
      LoopSound(lhs, rest, minBp);
  }

  /** The loop may be entered only with a left operand that no longer waits for a tighter operator. */
  lemma OperatorToken(ts: seq<Tok>)
    requires ts != [] && Binding(ts[0]).Some?
    ensures ts == [OpTok(Binding(ts[0]).value.0)] + ts[1..]
  {
  }

  /** One more operator with its right operand. */
  lemma OperatorSound(lhs: Expr, op: Op, rhs: Expr, rest: seq<Tok>, minBp: nat)
    requires minBp <= 30 && AtPower(minBp, lhs)
    requires var (_, lbp, rbp) := Binding(OpTok(op)).value;
             lbp >= minBp && lbp < TopRbp(lhs) && AtPower(rbp, rhs) && !Continues(rest, rbp)
    ensures var e := Bin(op, lhs, rhs);
            && AtPower(minBp, e) && !Continues(rest, TopRbp(e))
            && Yield(lhs) + ([OpTok(op)] + (Yield(rhs) + rest)) == Yield(e) + rest
  {
    hide Yield;
    hide AtPower;
    var e := Bin(op, lhs, rhs);
    OperatorYields(lhs, op, rhs, rest);
    OperatorAtPower(lhs, op, rhs, minBp);
  }

  lemma OperatorYields(lhs: Expr, op: Op, rhs: Expr, rest: seq<Tok>)
    ensures Yield(lhs) + ([OpTok(op)] + (Yield(rhs) + rest)) == Yield(Bin(op, lhs, rhs)) + rest
  {
    assert Yield(Bin(op, lhs, rhs)) == Yield(lhs) + [OpTok(op)] + Yield(rhs);
  }

  lemma OperatorAtPower(lhs: Expr, op: Op, rhs: Expr, minBp: nat)
    requires minBp <= 30 && AtPower(minBp, lhs)
    requires var (_, lbp, rbp) := Binding(OpTok(op)).value; lbp >= minBp && lbp < TopRbp(lhs) && AtPower(rbp, rhs)
    ensures AtPower(minBp, Bin(op, lhs, rhs))
  {
    TopOperator(lhs);
    TopOperator(rhs);
    TopOperator(Bin(op, lhs, rhs));
  }

  lemma {:induction false} LoopSound(lhs: Expr, ts: seq<Tok>, minBp: nat)
    requires minBp <= 30 && AtPower(minBp, lhs)
    requires !Continues(ts, TopRbp(lhs))
    ensures var r := ParseLoop(lhs, ts, minBp);
            r.Tree? ==> AtPower(minBp, r.e) && Yield(r.e) + r.rest == Yield(lhs) + ts && !Continues(r.rest, minBp)
    decreases |ts|, 2
  {
    hide Yield;
    hide ParseE;
    hide AtPower;
    hide IsE;
    if Continues(ts, minBp) {
      var (op, lbp, rbp) := Binding(ts[0]).value;
      ExprSound(ts[1..], rbp);
      match ParseE(ts[1..], rbp) {
        case NoTree =>
        case Tree(rhs, rest) =>
          var e := Bin(op, lhs, rhs);
          OperatorToken(ts);
          assert ts == [OpTok(op)] + (Yield(rhs) + rest);
          OperatorSound(lhs, op, rhs, rest, minBp);
          LoopSound(e, rest, minBp);
      }
    }
  }

  // ---------------------------------------------------------------- completeness: a derivation is found

  lemma {:induction false} PrefixComplete(e: Expr, rest: seq<Tok>)
    requires IsU(e)
    ensures ParsePrefixTree(Yield(e) + rest) == Tree(e, rest)
    decreases e, 0
  {
    var ts := Yield(e) + rest;
    match e
    case Lit(n) => assert ts[1..] == rest;
    case Neg(x) => assert ts[1..] == Yield(x) + rest; PrefixComplete(x, rest);
    case Pos(x) => assert ts[1..] == Yield(x) + rest; PrefixComplete(x, rest);
    case Group(x) =>
      var tail := [RParen] + rest;
      assert ts[1..] == Yield(x) + tail;
      ExprComplete(x, tail, 0);
      assert ParseLoop(x, tail, 0) == Tree(x, tail);
      assert tail[1..] == rest;
  }

  /** Parsing a tree's yield reaches the loop with exactly that tree as the left operand. */
  lemma {:induction false} ExprComplete(e: Expr, rest: seq<Tok>, minBp: nat)
    requires minBp <= 29 && AtPower(minBp, e)
    requires !Continues(rest, TopRbp(e))
    ensures ParseE(Yield(e) + rest, minBp) == ParseLoop(e, rest, minBp)
    decreases e, 1
  {
    TopOperator(e);
    if e.Bin? {
      TopOperator(e.l);
      var tail := [OpTok(e.op)] + (Yield(e.r) + rest);
      var (_, _, rbp) := Binding(OpTok(e.op)).value;
      assert Yield(e) + rest == Yield(e.l) + tail;
      ExprComplete(e.l, tail, minBp);
      assert tail[1..] == Yield(e.r) + rest;
      ExprComplete(e.r, rest, rbp);
      assert ParseLoop(e.r, rest, rbp) == Tree(e.r, rest);
    } else {
      PrefixComplete(e, rest);
    }
  }

  /** The Pratt parser finds a tree exactly for the token lists the grammar derives, and the
      tree it finds is the derivation. */
  lemma PrattIsTheGrammar(ts: seq<Tok>, e: Expr)
    ensures TreeOf(ts) == Some(e) <==> IsE(e) && Yield(e) == ts
  {
    if TreeOf(ts) == Some(e) {
      ExprSound(ts, 0);
      assert Yield(e) + [] == Yield(e);
    }
    if IsE(e) && Yield(e) == ts {
      assert Yield(e) + [] == ts;
      ExprComplete(e, [], 0);
    }
  }

  lemma GrammarIsUnambiguous(e1: Expr, e2: Expr)
    requires IsE(e1) && IsE(e2) && Yield(e1) == Yield(e2)
    ensures e1 == e2
  {
    PrattIsTheGrammar(Yield(e1), e1);
    PrattIsTheGrammar(Yield(e2), e2);
  }

  // ---------------------------------------------------------------- the evaluator refines the tree

  /** Evaluation while parsing, on the remaining tokens: no tree is built. */
  function EvalE(p: Profile, ts: seq<Tok>, minBp: nat): (r: Outcome<(i64, seq<Tok>)>)
    ensures r.Ok? ==> |r.value.1| < |ts|
    decreases |ts|, 1
  {
    var (lhs, rest) :- EvalPrefix(p, ts);
    EvalLoop(p, lhs, rest, minBp)
  }

  function EvalLoop(p: Profile, lhs: i64, ts: seq<Tok>, minBp: nat): (r: Outcome<(i64, seq<Tok>)>)
    ensures r.Ok? ==> |r.value.1| <= |ts|
    decreases |ts|, 2
  {
    if !Continues(ts, minBp) then Ok((lhs, ts))
    else
      var (op, _, rbp) := Binding(ts[0]).value;
      var (rhs, rest) :- EvalE(p, ts[1..], rbp);
      var v :- ApplyBinop(p, op, lhs, rhs);
      EvalLoop(p, v, rest, minBp)
  }

  function EvalPrefix(p: Profile, ts: seq<Tok>): (r: Outcome<(i64, seq<Tok>)>)
    ensures r.Ok? ==> |r.value.1| < |ts|
    decreases |ts|, 0
  {
    if ts == [] then Err(ExpectedOperand) else
    match ts[0]
    case Num(n) => Ok((n, ts[1..]))
    case Minus =>
      var (v, rest) :- EvalPrefix(p, ts[1..]);
      var w :- Settle(p, 0 - v);
      Ok((w, rest))
    case Plus => EvalPrefix(p, ts[1..])
    case LParen =>
      var (v, rest) :- EvalE(p, ts[1..], 0);
      if rest != [] && rest[0] == RParen then Ok((v, rest[1..])) else Err(ExpectedCloseParen)
    case _ => Err(ExpectedOperand)
  }

  /** An evaluation agrees with a parse: same rest and the tree's value, or the tree's failure;
      without a tree it fails. */
  predicate Agrees(p: Profile, r: Outcome<(i64, seq<Tok>)>, t: Parse) {
    match t
    case NoTree => !r.Ok?
    case Tree(e, rest) =>
      match Eval(p, e)
      case Ok(v) => r == Ok((v, rest))
      case Err(x) => r == Err(x)
      case Panic => r == Panic
  }

  lemma {:induction false} EvalPrefixAgrees(p: Profile, ts: seq<Tok>)
    ensures Agrees(p, EvalPrefix(p, ts), ParsePrefixTree(ts))
    decreases |ts|, 0
  {
    if ts != [] {
      match ts[0]
      case Minus => EvalPrefixAgrees(p, ts[1..]);
      case Plus => EvalPrefixAgrees(p, ts[1..]);
      case LParen => EvalAgrees(p, ts[1..], 0);
      case _ =>
    }
  }

  lemma {:induction false} EvalAgrees(p: Profile, ts: seq<Tok>, minBp: nat)
    ensures Agrees(p, EvalE(p, ts, minBp), ParseE(ts, minBp))
    decreases |ts|, 1
  {
    EvalPrefixAgrees(p, ts);
    match ParsePrefixTree(ts)
    case NoTree =>
    case Tree(lhs, rest) =>
      if Eval(p, lhs).Ok? {
        EvalLoopAgrees(p, lhs, rest, minBp);
      } else {
        LoopStrict(p, lhs, rest, minBp);
      }
  }

  lemma {:induction false} EvalLoopAgrees(p: Profile, lhs: Expr, ts: seq<Tok>, minBp: nat)
    requires Eval(p, lhs).Ok?
    ensures Agrees(p, EvalLoop(p, Eval(p, lhs).value, ts, minBp), ParseLoop(lhs, ts, minBp))
    decreases |ts|, 2
  {
    if Continues(ts, minBp) {
      var (op, _, rbp) := Binding(ts[0]).value;
      EvalAgrees(p, ts[1..], rbp);
      match ParseE(ts[1..], rbp) {
        case NoTree =>
        case Tree(rhs, rest) =>
          var e := Bin(op, lhs, rhs);
          if Eval(p, e).Ok? {
            EvalLoopAgrees(p, e, rest, minBp);
          } else {
            LoopStrict(p, e, rest, minBp);
          }
      }
    }
  }

  /** A failed left operand fails every tree the loop can still build around it. */
  lemma {:induction false} LoopStrict(p: Profile, lhs: Expr, ts: seq<Tok>, minBp: nat)
    requires !Eval(p, lhs).Ok?
    ensures var r := ParseLoop(lhs, ts, minBp); r.Tree? ==> Eval(p, r.e) == Eval(p, lhs)
    decreases |ts|
  {
    if Continues(ts, minBp) {
      var (op, _, rbp) := Binding(ts[0]).value;
      match ParseE(ts[1..], rbp) {
        case NoTree =>
        case Tree(rhs, rest) => LoopStrict(p, Bin(op, lhs, rhs), rest, minBp);
      }
    }
  }

  /** Relates the result of a method that moves an index to a function on the remaining tokens. */
  predicate Reached(tokens: seq<Tok>, spec: Outcome<(i64, seq<Tok>)>, r: Outcome<i64>, pos: nat) {
    match spec
    case Ok((v, rest)) => r == Ok(v) && pos <= |tokens| && rest == tokens[pos..]
    case Err(x) => r == Err(x)
    case Panic => r == Panic
  }

  method ParseExpr(p: Profile, tokens: seq<Tok>, start: nat, minBp: nat) returns (r: Outcome<i64>, pos: nat)
    requires start <= |tokens|
    ensures Reached(tokens, EvalE(p, tokens[start..], minBp), r, pos)
    decreases |tokens| - start, 1
  {
    r, pos := ParsePrefix(p, tokens, start);
    if !r.Ok? { return; }
    var lhs := r.value;
    while pos < |tokens|
      invariant start < pos <= |tokens|
      invariant EvalE(p, tokens[start..], minBp) == EvalLoop(p, lhs, tokens[pos..], minBp)
      decreases |tokens| - pos
    {
      var binding := Binding(tokens[pos]);
      if binding.None? || binding.value.1 < minBp { break; }
      var (op, _, rbp) := binding.value;
      assert tokens[pos..][1..] == tokens[pos + 1..];
      r, pos := ParseExpr(p, tokens, pos + 1, rbp);
      if !r.Ok? { return; }
      r := ApplyBinop(p, op, lhs, r.value);
      if !r.Ok? { return; }
      lhs := r.value;
    }
    r := Ok(lhs);
  }

  method ParsePrefix(p: Profile, tokens: seq<Tok>, start: nat) returns (r: Outcome<i64>, pos: nat)
    requires start <= |tokens|
    ensures Reached(tokens, EvalPrefix(p, tokens[start..]), r, pos)
    decreases |tokens| - start, 0
  {
    pos := start;
    if pos == |tokens| { return Err(ExpectedOperand), pos; }
    assert tokens[start..][1..] == tokens[start + 1..];
    match tokens[pos]
    case Num(n) =>
      return Ok(n), pos + 1;
    case Minus =>
      r, pos := ParsePrefix(p, tokens, pos + 1);
      if r.Ok? { r := Settle(p, 0 - r.value); }
    case Plus =>
      r, pos := ParsePrefix(p, tokens, pos + 1);
    case LParen =>
      r, pos := ParseExpr(p, tokens, pos + 1, 0);
      if r.Ok? {
        if pos == |tokens| || tokens[pos] != RParen { return Err(ExpectedCloseParen), pos; }
        assert tokens[pos..][1..] == tokens[pos + 1..];
        pos := pos + 1;
      }
    case _ =>
      return Err(ExpectedOperand), pos;
  }

  // ---------------------------------------------------------------- text

  predicate IsBlank(c: char) {
    c == ' ' || c == '\t'
  }

  function Simple(c: char): Option<Tok> {
    match c
    case '+' => Some(Plus)
    case '-' => Some(Minus)
    case '/' => Some(Slash)
    case '%' => Some(Percent)
    case '(' => Some(LParen)
    case ')' => Some(RParen)
    case _ => None
  }

  function Prepend(ts: seq<Tok>, o: Outcome<seq<Tok>>): Outcome<seq<Tok>> {
    if o.Ok? then Ok(ts + o.value) else o
  }

  /** The token list of a text, or the first character or numeral that has no token. */
  function Tokens(s: string): Outcome<seq<Tok>>
    decreases |s|
  {
    if s == "" then Ok([])
    else if IsBlank(s[0]) then Tokens(s[1..])
    else if IsDigit(s[0]) then
      var n := DigitRun(s);
      if Value(s[..n]) > MAX_I64 then Err(BadNumber)
      else Prepend([Num(Value(s[..n]))], Tokens(s[n..]))
    else if s[0] == '*' then
      if |s| > 1 && s[1] == '*' then Prepend([StarStar], Tokens(s[2..])) else Prepend([Star], Tokens(s[1..]))
    else
      match Simple(s[0])
      case Some(t) => Prepend([t], Tokens(s[1..]))
      case None => Err(UnexpectedChar(s[0]))
  }

  method TakeDigits(input: string, start: nat) returns (num: string, i: nat)
    requires start < |input| && IsDigit(input[start])
    ensures start < i <= |input| && input[start..] == num + input[i..]
    ensures num != "" && AllDigits(num) && (i < |input| ==> !IsDigit(input[i]))
  {
    num, i := "", start;
    while i < |input| && IsDigit(input[i])
      invariant start <= i <= |input|
      invariant num == input[start..i] && AllDigits(num)
    {
      num := num + [input[i]];
      i := i + 1;
    }
  }

  method TokenizeArith(input: string) returns (r: Outcome<seq<Tok>>)
    ensures r == Tokens(input)
  {
    var tokens: seq<Tok> := [];
    var i := 0;
    assert input[0..] == input;
    assert Tokens(input).Ok? ==> [] + Tokens(input).value == Tokens(input).value;
    while i < |input|
      invariant 0 <= i <= |input|
      invariant Tokens(input) == Prepend(tokens, Tokens(input[i..]))
    {
      var c := input[i];
      var start := i;
      if IsBlank(c) {
        i := i + 1;
        assert input[start..][1..] == input[i..];
      } else {
        var t;
        if IsDigit(c) {
          var num;
          num, i := TakeDigits(input, start);
          NumeralToken(num, input[i..]);
          if Value(num) > MAX_I64 { return Err(BadNumber); }
          t := Num(Value(num));
        } else if c == '*' {
          i := i + 1;
          t := Star;
          assert input[start..][1..] == input[i..];
          if i < |input| && input[i] == '*' {
            i := i + 1;
            t := StarStar;
            assert input[start..][2..] == input[i..];
          }
        } else {
          var u := Simple(c);
          if u.None? { return Err(UnexpectedChar(c)); }
          i := i + 1;
          t := u.value;
          assert input[start..][1..] == input[i..];
        }
        PrependTwice(tokens, [t], Tokens(input[i..]));
        tokens := tokens + [t];
      }
    }
    assert input[i..] == "" && tokens + [] == tokens;
    return Ok(tokens);
  }

  /** A maximal digit run in front of a text is one number token, if it fits. */
  lemma NumeralToken(num: string, rest: string)
    requires num != "" && AllDigits(num)
    requires rest == "" || !IsDigit(rest[0])
    ensures Tokens(num + rest) ==
            if Value(num) > MAX_I64 then Err(BadNumber) else Prepend([Num(Value(num))], Tokens(rest))
  {
    var s := num + rest;
    DigitRunOf(num, rest);
    assert s[..|num|] == num && s[|num|..] == rest && s[0] == num[0];
  }

  lemma PrependTwice(ts: seq<Tok>, us: seq<Tok>, o: Outcome<seq<Tok>>)
    ensures Prepend(ts, Prepend(us, o)) == Prepend(ts + us, o)
  {
    if o.Ok? {
      assert ts + (us + o.value) == ts + us + o.value;
    }
  }

  /** The tree of a text, when the text is an expression of the grammar. */
  function TextTree(s: string): Option<Expr> {
    match Tokens(s)
    case Ok(ts) => TreeOf(ts)
    case _ => None
  }

  /** What `parse_arith` answers for a text. */
  function EvalText(p: Profile, s: string): Outcome<i64> {
    var ts :- Tokens(s);
    var (v, rest) :- EvalE(p, ts, 0);
    if rest != [] then Err(UnexpectedToken(|ts| - |rest|)) else Ok(v)
  }

  method ParseArith(p: Profile, input: string) returns (r: Outcome<i64>)
    ensures r == EvalText(p, input)
  {
    var ts := TokenizeArith(input);
    if !ts.Ok? { return ts.PropagateFailure(); }
    var tokens, pos := ts.value, 0;
    assert tokens[0..] == tokens;
    r, pos := ParseExpr(p, tokens, 0, 0);
    if r.Ok? && pos != |tokens| { return Err(UnexpectedToken(pos)); }
  }

  /** The evaluator answers `Ok(v)` exactly when the text's tokens derive from the grammar and
      the derivation evaluates to `v`. */
  lemma EvaluatorIsTheGrammar(p: Profile, s: string, v: i64)
    ensures EvalText(p, s) == Ok(v) <==>
            (Tokens(s).Ok? && exists e :: IsE(e) && Yield(e) == Tokens(s).value && Eval(p, e) == Ok(v))
  {
    if Tokens(s).Ok? {
      EvalAgrees(p, Tokens(s).value, 0);
      if EvalText(p, s) == Ok(v) {
        PrattIsTheGrammar(Tokens(s).value, ParseE(Tokens(s).value, 0).e);
      }
      if exists e :: IsE(e) && Yield(e) == Tokens(s).value && Eval(p, e) == Ok(v) {
        var e :| IsE(e) && Yield(e) == Tokens(s).value && Eval(p, e) == Ok(v);
        PrattIsTheGrammar(Tokens(s).value, e);
      }
    }
  }

  /** The whole outcome of a text that is an expression, failures included, is its tree's. */
  lemma TextOutcome(p: Profile, s: string)
    requires TextTree(s).Some?
    ensures EvalText(p, s) == Eval(p, TextTree(s).value)
  {
    EvalAgrees(p, Tokens(s).value, 0);
  }

  // ---------------------------------------------------------------- texts that are no expressions

  /** Evaluating a tree's yield reaches the loop with the tree's value as the left operand. */
  lemma {:induction false} EvalReaches(p: Profile, e: Expr, rest: seq<Tok>, minBp: nat)
    requires minBp <= 29 && AtPower(minBp, e) && Eval(p, e).Ok?
    requires !Continues(rest, TopRbp(e))
    ensures EvalE(p, Yield(e) + rest, minBp) == EvalLoop(p, Eval(p, e).value, rest, minBp)
    decreases e
  {
    hide ApplyBinop;
    TopOperator(e);
    if e.Bin? {
      TopOperator(e.l);
      var tail := [OpTok(e.op)] + (Yield(e.r) + rest);
      var (_, _, rbp) := Binding(OpTok(e.op)).value;
      assert Yield(e) + rest == Yield(e.l) + tail;
      EvalReaches(p, e.l, tail, minBp);
      assert tail[1..] == Yield(e.r) + rest;
      EvalReaches(p, e.r, rest, rbp);
      assert EvalLoop(p, Eval(p, e.r).value, rest, rbp) == Ok((Eval(p, e.r).value, rest));
    } else {
      PrefixComplete(e, rest);
      EvalPrefixAgrees(p, Yield(e) + rest);
    }
  }

  lemma WholeReaches(p: Profile, e: Expr, rest: seq<Tok>)
    requires IsE(e) && Eval(p, e).Ok?
    requires rest == [] || rest[0].Num? || rest[0].LParen? || rest[0].RParen? || rest[0].Plus? || rest[0].Minus?
    ensures EvalE(p, Yield(e) + rest, 0) == EvalLoop(p, Eval(p, e).value, rest, 0)
  {
    TopOperator(e);
    EvalReaches(p, e, rest, 0);
  }

  /** Tokens behind a whole expression: the answer names the first of them. */
  lemma TrailingToken(p: Profile, s: string, e: Expr, t: Tok, more: seq<Tok>)
    requires Tokens(s) == Ok(Yield(e) + ([t] + more)) && IsE(e) && Eval(p, e).Ok?
    requires t.Num? || t.LParen? || t.RParen?
    ensures EvalText(p, s) == Err(UnexpectedToken(|Yield(e)|))
  {
    hide Tokens;
    hide EvalE;
    var ts := Yield(e) + ([t] + more);
    WholeReaches(p, e, [t] + more);
    assert |ts| - |[t] + more| == |Yield(e)|;
  }

  /** A parenthesis that is never closed. */
  lemma OpenParenthesis(p: Profile, s: string, e: Expr)
    requires Tokens(s) == Ok([LParen] + Yield(e)) && IsE(e) && Eval(p, e).Ok?
    ensures EvalText(p, s) == Err(ExpectedCloseParen)
  {
    hide Tokens;
    var ts := [LParen] + Yield(e);
    assert ts[1..] == Yield(e) + [];
    WholeReaches(p, e, []);
    assert EvalLoop(p, Eval(p, e).value, [], 0) == Ok((Eval(p, e).value, []));
    assert EvalPrefix(p, ts) == Err(ExpectedCloseParen);
  }

  /** An operand is missing in an empty text, in front of an operator, and behind one. */
  lemma MissingOperand(p: Profile, s: string, e: Expr, op: Op, more: seq<Tok>)
    requires IsE(e) && Eval(p, e).Ok?
    ensures Tokens(s) == Ok([]) ==> EvalText(p, s) == Err(ExpectedOperand)
    ensures !op.Add? && !op.Sub? && Tokens(s) == Ok([OpTok(op)] + more) ==> EvalText(p, s) == Err(ExpectedOperand)
    ensures (op.Add? || op.Sub?) && Tokens(s) == Ok(Yield(e) + [OpTok(op)]) ==> EvalText(p, s) == Err(ExpectedOperand)
  {
    hide Tokens;
    assert EvalE(p, [], 0) == Err(ExpectedOperand);
    if !op.Add? && !op.Sub? { assert EvalE(p, [OpTok(op)] + more, 0) == Err(ExpectedOperand); }
    if op.Add? || op.Sub? {
      WholeReaches(p, e, [OpTok(op)]);
      assert [OpTok(op)][1..] == [] && EvalE(p, [], 11) == Err(ExpectedOperand);
      assert EvalLoop(p, Eval(p, e).value, [OpTok(op)], 0) == Err(ExpectedOperand);
    }
  }

  /** A numeral that does not fit 64 bits is refused. */
  lemma HugeNumeral(n: nat, rest: string)
    requires n > MAX_I64 && (rest == "" || !IsDigit(rest[0]))
    ensures Tokens(Show(n) + rest) == Err(BadNumber)
  {
    hide Tokens;
    hide Show;
    ValueOfShow(n);
    NumeralToken(Show(n), rest);
  }

  // ---------------------------------------------------------------- overflow and division

  /** A result that does not fit aborts a debug build and wraps around in a release build, by a
      multiple of 2^64 into the range. */
  lemma OverflowLaw(x: int) returns (turns: int)
    requires x < MIN_I64 || x > MAX_I64
    ensures Settle(Debug, x) == Panic
    ensures Settle(Release, x).Ok? && Settle(Release, x).value == x + turns * 0x1_0000_0000_0000_0000
  {
    var m, y := 0x1_0000_0000_0000_0000, x - MIN_I64;
    turns := -(y / m);
    assert y == m * (y / m) + y % m;
  }

  /** Division by zero, each with its own error; the one quotient and the one remainder that do not fit
      abort every build; a negative exponent gives 0. */
  lemma DivisionLaw(p: Profile, l: i64, r: i64)
    ensures r == 0 ==> ApplyBinop(p, Div, l, r) == Err(DivisionByZero) && ApplyBinop(p, Rem, l, r) == Err(ModuloByZero)
    ensures l == MIN_I64 && r == -1 ==> ApplyBinop(p, Div, l, r) == Panic && ApplyBinop(p, Rem, l, r) == Panic
    ensures r < 0 ==> ApplyBinop(p, Pow, l, r) == Ok(0)
  {
  }

  // ---------------------------------------------------------------- exact arithmetic

  /** The value over unbounded integers; `None` when a divisor is zero. */
  function Exact(e: Expr): Option<int> {
    match e
    case Lit(n) => Some(n)
    case Neg(x) => (match Exact(x) case Some(v) => Some(-v) case None => None)
    case Pos(x) => Exact(x)
    case Group(x) => Exact(x)
    case Bin(op, l, r) =>
      match (Exact(l), Exact(r))
      case (Some(a), Some(b)) => ExactBinop(op, a, b)
      case _ => None
  }

  function ExactBinop(op: Op, a: int, b: int): Option<int> {
    match op
    case Add => Some(a + b)
    case Sub => Some(a - b)
    case Mul => Some(a * b)
    case Div => if b == 0 then None else Some(TruncDiv(a, b))
    case Rem => if b == 0 then None else Some(TruncRem(a, b))
    case Pow => Some(if b < 0 then 0 else Power(a, b))
  }

  predicate InRange(x: Option<int>) {
    x.Some? ==> MIN_I64 <= x.value <= MAX_I64
  }

  /** Every intermediate value fits an `i64`, every exponent is below 2^32, and no remainder is
      taken of the minimum by -1. */
  predicate Fits(e: Expr) {
    && InRange(Exact(e))
    && match e
       case Lit(_) => true
       case Neg(x) => Fits(x)
       case Pos(x) => Fits(x)
       case Group(x) => Fits(x)
       case Bin(op, l, r) =>
         && Fits(l) && Fits(r)
         && (op.Pow? && Exact(r).Some? ==> Exact(r).value < 0x1_0000_0000)
         && (op.Rem? ==> !(Exact(l) == Some(MIN_I64) && Exact(r) == Some(-1)))
  }

  lemma {:induction false} OperatorIsExact(p: Profile, op: Op, a: i64, b: i64)
    requires InRange(ExactBinop(op, a, b)) && (op.Pow? ==> b < 0x1_0000_0000)
    requires op.Rem? ==> !(a == MIN_I64 && b == -1)
    ensures var x := ExactBinop(op, a, b);
            if x.Some? then ApplyBinop(p, op, a, b) == Ok(x.value)
            else ApplyBinop(p, op, a, b) in {Err(DivisionByZero), Err(ModuloByZero)}
  {
    hide Power;
    hide Wrap;
  }

  lemma {:induction false} MachineIsExact(p: Profile, e: Expr)
    requires Fits(e)
    ensures Exact(e).Some? ==> Eval(p, e) == Ok(Exact(e).value)
    ensures Exact(e).None? ==> Eval(p, e) in {Err(DivisionByZero), Err(ModuloByZero)}
  {
    hide ApplyBinop;
    hide ExactBinop;
    match e
    case Lit(_) =>
    case Neg(x) => MachineIsExact(p, x);
    case Pos(x) => MachineIsExact(p, x);
    case Group(x) => MachineIsExact(p, x);
    case Bin(op, l, r) =>
      MachineIsExact(p, l);
      MachineIsExact(p, r);
      if Exact(l).Some? && Exact(r).Some? { OperatorIsExact(p, op, Exact(l).value, Exact(r).value); }
  }

  lemma {:induction false} PowerAdds(b: int, m: nat, n: nat)
    ensures Power(b, m + n) == Power(b, m) * Power(b, n)
    decreases m
  {
    if m > 0 { PowerAdds(b, m - 1, n); }
  }

  lemma {:induction false} PowerOfUnit(n: nat)
    ensures Power(1, n) == 1 && Power(-1, n) == (if n % 2 == 0 then 1 else -1) && Power(0, n) == (if n == 0 then 1 else 0)
  {
    if n > 0 { PowerOfUnit(n - 1); }
  }

  lemma {:induction false} PowerGrows(b: int, n: nat)
    requires Abs(b) >= 2
    ensures Abs(Power(b, n)) >= Power(2, n) > 0
  {
    if n > 0 {
      PowerGrows(b, n - 1);
      AbsTimes(b, Power(b, n - 1));
      var x, y := Abs(b), Abs(Power(b, n - 1));
      assert x * y >= 2 * y by { TimesAtLeast(x, 2, y); }
    }
  }

  lemma AbsTimes(a: int, b: int)
    ensures Abs(a * b) == Abs(a) * Abs(b)
  {
    if a < 0 && b < 0 {
      assert a * b == (-a) * (-b);
    } else if a < 0 {
      assert a * b == -((-a) * b);
    } else if b < 0 {
      assert a * b == -(a * (-b));
    }
  }

  lemma TimesAtLeast(x: nat, k: nat, y: nat)
    requires x >= k
    ensures x * y >= k * y
  {
    assert x * y == k * y + (x - k) * y;
  }

  lemma PowerOfTwo()
    ensures Power(2, 64) == 0x1_0000_0000_0000_0000
  {
    assert Power(2, 8) == 256;
    PowerAdds(2, 8, 8);
    PowerAdds(2, 16, 16);
    PowerAdds(2, 32, 32);
  }

  lemma HugePower(b: int, n: nat)
    requires Abs(b) >= 2 && n >= 64
    ensures Abs(Power(b, n)) > MAX_I64 + 1
  {
    hide Power;
    PowerGrows(b, n);
    PowerGrows(2, n - 64);
    PowerAdds(2, 64, n - 64);
    PowerOfTwo();
    TimesAtLeast(Power(2, n - 64), 1, Power(2, 64));
  }

  lemma SameParity(b: nat)
    ensures b % 0x1_0000_0000 % 2 == b % 2
  {
    var q, e := b / 0x1_0000_0000, b % 0x1_0000_0000;
    assert b == 2 * (q * 0x8000_0000) + e;
  }

  lemma SettleIsExact(p: Profile, x: int)
    ensures Settle(p, x).Ok? && Settle(p, x).value == x <==> MIN_I64 <= x <= MAX_I64
  {
  }

  /** Does `**` give the true power? */
  predicate IsTruePower(p: Profile, a: i64, b: i64)
    requires b >= 0
  {
    var r := ApplyBinop(p, Pow, a, b);
    r.Ok? && r.value == Power(a, b)
  }

  lemma PowIsSettled(p: Profile, a: i64, b: i64)
    requires b >= 0
    ensures ApplyBinop(p, Pow, a, b) == Settle(p, Power(a, b % 0x1_0000_0000))
  {
    hide Power;
    hide Settle;
  }

  lemma BigBase(p: Profile, a: i64, b: i64)
    requires b >= 64 && Abs(a) >= 2
    ensures !IsTruePower(p, a, b)
  {
    hide Power;
    hide ApplyBinop;
    HugePower(a, b);
  }

  lemma SmallBase(p: Profile, a: i64, b: i64)
    requires b >= 0x1_0000_0000 && Abs(a) < 2
    ensures IsTruePower(p, a, b) <==> a != 0 || b % 0x1_0000_0000 != 0
  {
    hide Power;
    hide Settle;
    hide ApplyBinop;
    var e := b % 0x1_0000_0000;
    PowIsSettled(p, a, b);
    PowerOfUnit(b);
    PowerOfUnit(e);
    SameParity(b);
    SettleIsExact(p, Power(a, e));
    assert a == 0 || a == 1 || a == -1;
  }

  /** The exponent is cut to 32 bits before the power is taken. The result is the true power exactly
      when it fits and the exponent is below 2^32, or the base is one whose powers do not notice. */
  lemma ExponentIsTruncated(p: Profile, a: i64, b: i64)
    requires b >= 0
    ensures IsTruePower(p, a, b) <==>
            if b < 0x1_0000_0000 then MIN_I64 <= Power(a, b) <= MAX_I64
            else a == 1 || a == -1 || (a == 0 && b % 0x1_0000_0000 != 0)
  {
    hide Power;
    hide Settle;
    hide ApplyBinop;
    if b < 0x1_0000_0000 {
      PowIsSettled(p, a, b);
      SettleIsExact(p, Power(a, b));
    } else if Abs(a) >= 2 {
      BigBase(p, a, b);
    } else {
      SmallBase(p, a, b);
    }
  }

  // ---------------------------------------------------------------- printing with minimal parentheses

  datatype Level = LE | LT | LF | LU {
    function Rank(): nat {
      match this
      case LE => 0
      case LT => 1
      case LF => 2
      case LU => 3
    }
  }

  predicate AtLevel(k: Level, e: Expr) {
    match k
    case LE => IsE(e)
    case LT => IsT(e)
    case LF => IsF(e)
    case LU => IsU(e)
  }

  function OpLevel(op: Op): Level {
    match op
    case Add => LE
    case Sub => LE
    case Pow => LF
    case _ => LT
  }

  function LeftLevel(op: Op): Level {
    if op.Pow? then LU else OpLevel(op)
  }

  function RightLevel(op: Op): Level {
    if op.Add? || op.Sub? then LT else LF
  }

  /** An expression as a user thinks of it: no parentheses, literals not negative. */
  predicate Abstract(e: Expr) {
    match e
    case Lit(n) => n >= 0
    case Neg(x) => Abstract(x)
    case Pos(x) => Abstract(x)
    case Group(_) => false
    case Bin(_, l, r) => Abstract(l) && Abstract(r)
  }

  /** Inserts parentheses exactly where a subtree's operator binds less tightly than its place asks. */
  function Parenthesize(e: Expr, k: Level): Expr {
    match e
    case Lit(n) => e
    case Neg(x) => Neg(Parenthesize(x, LU))
    case Pos(x) => Pos(Parenthesize(x, LU))
    case Group(x) => Parenthesize(x, k)
    case Bin(op, l, r) =>
      var b := Bin(op, Parenthesize(l, LeftLevel(op)), Parenthesize(r, RightLevel(op)));
      if OpLevel(op).Rank() < k.Rank() then Group(b) else b
  }

  /** The tree without its parentheses. */
  function Erase(e: Expr): Expr {
    match e
    case Lit(n) => e
    case Neg(x) => Neg(Erase(x))
    case Pos(x) => Pos(Erase(x))
    case Group(x) => Erase(x)
    case Bin(op, l, r) => Bin(op, Erase(l), Erase(r))
  }

  function Groups(e: Expr): nat {
    match e
    case Lit(n) => 0
    case Neg(x) => Groups(x)
    case Pos(x) => Groups(x)
    case Group(x) => 1 + Groups(x)
    case Bin(op, l, r) => Groups(l) + Groups(r)
  }

  lemma {:induction false} ParenthesizeFits(p: Profile, e: Expr, k: Level)
    requires Abstract(e)
    ensures AtLevel(k, Parenthesize(e, k))
    ensures Erase(Parenthesize(e, k)) == e
    ensures Eval(p, Parenthesize(e, k)) == Eval(p, e)
  {
    match e
    case Lit(n) => TopOperator(e);
    case Neg(x) => ParenthesizeFits(p, x, LU); TopOperator(Parenthesize(e, k));
    case Pos(x) => ParenthesizeFits(p, x, LU); TopOperator(Parenthesize(e, k));
    case Bin(op, l, r) =>
      ParenthesizeFits(p, l, LeftLevel(op));
      ParenthesizeFits(p, r, RightLevel(op));
      var b := Bin(op, Parenthesize(l, LeftLevel(op)), Parenthesize(r, RightLevel(op)));
      TopOperator(b);
      TopOperator(Group(b));
  }

  lemma AtLevelDown(e: Expr, j: Level, k: Level)
    requires AtLevel(k, e) && j.Rank() <= k.Rank()
    ensures AtLevel(j, e)
  {
    TopOperator(e);
  }

  lemma {:induction false} RaiseLevel(e: Expr, k: Level)
    ensures Groups(Parenthesize(e, k)) <= 1 + Groups(Parenthesize(e, LE))
  {
    if e.Group? { RaiseLevel(e.e, k); }
  }

  /** No derivable way of parenthesising the same expression uses fewer parentheses. */
  lemma {:induction false} ParenthesizeIsMinimal(t: Expr, k: Level)
    requires AtLevel(k, t)
    ensures Groups(Parenthesize(Erase(t), k)) <= Groups(t)
  {
    TopOperator(t);
    match t
    case Lit(n) =>
    case Neg(x) => ParenthesizeIsMinimal(x, LU);
    case Pos(x) => ParenthesizeIsMinimal(x, LU);
    case Group(x) =>
      ParenthesizeIsMinimal(x, LE);
      RaiseLevel(Erase(x), k);
    case Bin(op, l, r) =>
      AtLevelDown(t, LE, k);
      ParenthesizeIsMinimal(l, LeftLevel(op));
      ParenthesizeIsMinimal(r, RightLevel(op));
  }

  function TokText(t: Tok): string
    requires t.Num? ==> t.n >= 0
  {
    match t
    case Num(n) => Show(n)
    case Plus => "+"
    case Minus => "-"
    case Star => "*"
    case Slash => "/"
    case Percent => "%"
    case StarStar => "**"
    case LParen => "("
    case RParen => ")"
  }

  predicate Printable(ts: seq<Tok>) {
    forall i :: 0 <= i < |ts| && ts[i].Num? ==> ts[i].n >= 0
  }

  /** The tokens written one after another, with no blanks. */
  function Text(ts: seq<Tok>): string
    requires Printable(ts)
  {
    if ts == [] then "" else TokText(ts[0]) + Text(ts[1..])
  }

  /** Two tokens that written side by side would be read as something else. */
  predicate Clash(a: Tok, b: Tok) {
    (a.Num? && b.Num?) || (a.Star? && (b.Star? || b.StarStar?))
  }

  predicate NoClash(ts: seq<Tok>) {
    forall i :: 0 <= i < |ts| - 1 ==> !Clash(ts[i], ts[i + 1])
  }

  lemma {:induction false} TokensOfText(ts: seq<Tok>)
    requires Printable(ts) && NoClash(ts)
    ensures Tokens(Text(ts)) == Ok(ts)
  {
    if ts != [] {
      var rest := Text(ts[1..]);
      assert NoClash(ts[1..]) by {
        forall i | 0 <= i < |ts[1..]| - 1 ensures !Clash(ts[1..][i], ts[1..][i + 1]) {
          assert !Clash(ts[i + 1], ts[i + 2]);
        }
      }
      TokensOfText(ts[1..]);
      assert ts == [ts[0]] + ts[1..];
      assert |ts| > 1 ==> !Clash(ts[0], ts[1]) && rest == TokText(ts[1]) + Text(ts[1..][1..]);
      TokenOfText(ts[0], rest);
    }
  }

  /** Spaces and tabs, or nothing. */
  predicate AllBlank(gap: string) {
    forall c :: c in gap ==> c in " \t"
  }

  /** What stands in front of every token and behind the last one: blanks, and at least one between
      two tokens that would clash. */
  predicate WfGaps(ts: seq<Tok>, gaps: seq<string>) {
    && |gaps| == |ts| + 1
    && (forall i :: 0 <= i < |gaps| ==> AllBlank(gaps[i]))
    && (forall i :: 0 < i < |ts| && Clash(ts[i - 1], ts[i]) ==> gaps[i] != "")
  }

  /** The tokens written with these blanks. */
  function Spaced(ts: seq<Tok>, gaps: seq<string>): string
    requires Printable(ts) && |gaps| == |ts| + 1
  {
    if ts == [] then gaps[0] else gaps[0] + (TokText(ts[0]) + Spaced(ts[1..], gaps[1..]))
  }

  lemma {:induction false} BlanksAreSkipped(gap: string, s: string)
    requires AllBlank(gap)
    ensures Tokens(gap + s) == Tokens(s)
  {
    if gap == "" {
      assert gap + s == s;
    } else {
      assert gap[0] in gap && (gap + s)[1..] == gap[1..] + s;
      BlanksAreSkipped(gap[1..], s);
    }
  }

  lemma LaterGaps(ts: seq<Tok>, gaps: seq<string>)
    requires ts != [] && Printable(ts) && WfGaps(ts, gaps)
    ensures Printable(ts[1..]) && WfGaps(ts[1..], gaps[1..])
  {
    forall i | 0 < i < |ts[1..]| && Clash(ts[1..][i - 1], ts[1..][i]) ensures gaps[1..][i] != "" {
      assert Clash(ts[i], ts[i + 1]);
    }
  }

  /** How what stands behind the first token starts. */
  lemma BehindTheFirst(ts: seq<Tok>, gaps: seq<string>, r: string)
    requires ts != [] && Printable(ts) && WfGaps(ts, gaps)
    requires r == "" || (!IsDigit(r[0]) && r[0] != '*')
    ensures var rest := Spaced(ts[1..], gaps[1..]) + r;
            && (ts[0].Num? ==> rest == "" || !IsDigit(rest[0]))
            && (ts[0].Star? ==> rest == "" || rest[0] != '*')
  {
    var rest, gap := Spaced(ts[1..], gaps[1..]) + r, gaps[1];
    if gap != "" {
      assert gap[0] in gap && rest[0] == gap[0];
    } else if |ts| > 1 {
      assert gaps[1..][0] == "" && ts[1..][0] == ts[1];
      assert Spaced(ts[1..], gaps[1..]) == TokText(ts[1]) + Spaced(ts[1..][1..], gaps[1..][1..]);
      assert !Clash(ts[0], ts[1]);
      assert TokText(ts[1]) != "" && rest[0] == TokText(ts[1])[0];
    } else {
      assert rest == r;
    }
  }

  /** However tokens are spaced, tokenizing gives them back in front of what follows. */
  lemma {:induction false} SpacedThen(ts: seq<Tok>, gaps: seq<string>, r: string)
    requires Printable(ts) && WfGaps(ts, gaps)
    requires r == "" || (!IsDigit(r[0]) && r[0] != '*')
    ensures Tokens(Spaced(ts, gaps) + r) == Prepend(ts, Tokens(r))
    decreases |ts|
  {
    hide Tokens;
    hide TokText;
    if ts == [] {
      BlanksAreSkipped(gaps[0], r);
      PrependNothing(Tokens(r));
    } else {
      var rest := Spaced(ts[1..], gaps[1..]) + r;
      LaterGaps(ts, gaps);
      BehindTheFirst(ts, gaps, r);
      SpacedThen(ts[1..], gaps[1..], r);
      TokenOfText(ts[0], rest);
      BlanksAreSkipped(gaps[0], TokText(ts[0]) + rest);
      assert Spaced(ts, gaps) + r == gaps[0] + (TokText(ts[0]) + rest);
      assert ts == [ts[0]] + ts[1..];
      PrependTwice([ts[0]], ts[1..], Tokens(r));
    }
  }

  lemma PrependNothing(o: Outcome<seq<Tok>>)
    ensures Prepend([], o) == o
  {
    if o.Ok? { assert [] + o.value == o.value; }
  }

  /** Blanks mean nothing but that two tokens are two. */
  lemma SpacedTokens(ts: seq<Tok>, gaps: seq<string>)
    requires Printable(ts) && WfGaps(ts, gaps)
    ensures Tokens(Spaced(ts, gaps)) == Ok(ts)
  {
    hide Tokens;
    SpacedThen(ts, gaps, "");
    NoTokens();
    assert Spaced(ts, gaps) + "" == Spaced(ts, gaps) && ts + [] == ts;
  }

  /** The first character that starts no token is refused, whatever stands in front and behind. */
  lemma StrangeCharacter(ts: seq<Tok>, gaps: seq<string>, c: char, more: string)
    requires Printable(ts) && WfGaps(ts, gaps) && c !in " \t0123456789+-*/%()"
    ensures Tokens(Spaced(ts, gaps) + ([c] + more)) == Err(UnexpectedChar(c))
  {
    hide Spaced;
    assert !IsDigit(c) by { if IsDigit(c) { DigitIsListed(c); } }
    SpacedThen(ts, gaps, [c] + more);
  }

  lemma DigitIsListed(c: char)
    requires IsDigit(c)
    ensures c in "0123456789"
  {
    var ten := "0123456789";
    assert ten[(c as int) - ('0' as int)] == c;
  }

  lemma NoTokens()
    ensures Tokens("") == Ok([])
  {
  }

  /** An expression in any spacing, with as many parentheses as one likes, has the value or the
      failure of its tree. */
  lemma SpacedOutcome(p: Profile, e: Expr, gaps: seq<string>)
    requires IsE(e) && Printable(Yield(e)) && WfGaps(Yield(e), gaps)
    ensures EvalText(p, Spaced(Yield(e), gaps)) == Eval(p, e)
  {
    hide Tokens;
    hide Eval;
    hide EvalE;
    hide ParseE;
    hide Spaced;
    var s := Spaced(Yield(e), gaps);
    SpacedTokens(Yield(e), gaps);
    PrattIsTheGrammar(Yield(e), e);
    assert TextTree(s) == Some(e);
    TextOutcome(p, s);
  }

  /** One printed token in front of a text is read back as that token. */
  lemma TokenOfText(t: Tok, rest: string)
    requires t.Num? ==> t.n >= 0 && (rest == "" || !IsDigit(rest[0]))
    requires t.Star? ==> rest == "" || rest[0] != '*'
    ensures Tokens(TokText(t) + rest) == Prepend([t], Tokens(rest))
  {
    var s := TokText(t) + rest;
    if t.Num? {
      hide Tokens;
      hide Show;
      hide Value;
      ValueOfShow(t.n);
      NumeralToken(Show(t.n), rest);
    } else {
      SymbolOfText(t, rest);
    }
  }

  lemma SymbolOfText(t: Tok, rest: string)
    requires !t.Num? && (t.Star? ==> rest == "" || rest[0] != '*')
    ensures Tokens(TokText(t) + rest) == Prepend([t], Tokens(rest))
  {
    hide Prepend;
    var s := TokText(t) + rest;
    if t.StarStar? {
      assert s[0] == '*' && s[1] == '*' && s[2..] == rest;
    } else {
      assert s[0] == TokText(t)[0] && s[1..] == rest;
      assert |s| > 1 ==> s[1] == rest[0];
    }
  }

  predicate StartsOperand(t: Tok) {
    t.Num? || t.Minus? || t.Plus? || t.LParen?
  }

  predicate EndsOperand(t: Tok) {
    t.Num? || t.RParen?
  }

  /** A token list that may stand where an operand stands. */
  predicate Operand(ts: seq<Tok>) {
    ts != [] && StartsOperand(ts[0]) && EndsOperand(ts[|ts| - 1]) && Printable(ts) && NoClash(ts)
  }

  lemma PrefixedOperand(t: Tok, ts: seq<Tok>)
    requires t in {Minus, Plus} && Operand(ts)
    ensures Operand([t] + ts)
  {
    var us := [t] + ts;
    forall i | 0 <= i < |us| - 1 ensures !Clash(us[i], us[i + 1]) {
      assert i > 0 ==> !Clash(ts[i - 1], ts[i]);
    }
  }

  lemma JoinedOperand(ts: seq<Tok>, op: Op, us: seq<Tok>)
    requires Operand(ts) && Operand(us)
    ensures Operand(ts + [OpTok(op)] + us)
  {
    var vs := ts + [OpTok(op)] + us;
    forall i | 0 <= i < |vs| - 1 ensures !Clash(vs[i], vs[i + 1]) {
      if i + 1 < |ts| {
        assert !Clash(ts[i], ts[i + 1]);
      } else if i > |ts| {
        assert !Clash(us[i - |ts| - 1], us[i - |ts|]);
      }
    }
  }

  lemma GroupedOperand(ts: seq<Tok>)
    requires Operand(ts)
    ensures Operand([LParen] + ts + [RParen])
  {
    var us := [LParen] + ts + [RParen];
    forall i | 0 <= i < |us| - 1 ensures !Clash(us[i], us[i + 1]) {
      assert 0 < i < |ts| ==> !Clash(ts[i - 1], ts[i]);
    }
  }

  lemma {:induction false} YieldIsOperand(e: Expr)
    requires Abstract(Erase(e))
    ensures Operand(Yield(e))
  {
    match e
    case Lit(n) =>
    case Neg(x) => YieldIsOperand(x); PrefixedOperand(Minus, Yield(x));
    case Pos(x) => YieldIsOperand(x); PrefixedOperand(Plus, Yield(x));
    case Group(x) => YieldIsOperand(x); GroupedOperand(Yield(x));
    case Bin(op, l, r) => YieldIsOperand(l); YieldIsOperand(r); JoinedOperand(Yield(l), op, Yield(r));
  }

  function Print(e: Expr): string
    requires Abstract(e)
  {
    ParenthesizeFits(Debug, e, LE);
    YieldIsOperand(Parenthesize(e, LE));
    Text(Yield(Parenthesize(e, LE)))
  }

  /** Printing an expression with minimal parentheses and reading the text back gives the
      expression's own value, or its own failure, in either profile. */
  lemma ArithmeticRoundTrip(p: Profile, e: Expr)
    requires Abstract(e)
    ensures TextTree(Print(e)).Some? && Erase(TextTree(Print(e)).value) == e
    ensures EvalText(p, Print(e)) == Eval(p, e)
  {
    var t := Parenthesize(e, LE);
    ParenthesizeFits(p, e, LE);
    YieldIsOperand(t);
    TokensOfText(Yield(t));
    PrattIsTheGrammar(Yield(t), t);
    TextOutcome(p, Print(e));
  }

  function Tighter(op1: Op, op2: Op): bool {
    OpLevel(op2).Rank() > OpLevel(op1).Rank() || (op1.Pow? && op2.Pow?)
  }

  /** How `a op1 b op2 c` associates: to the right when `op2` binds tighter or both are `**`,
      to the left otherwise. */
  lemma Associativity(a: Expr, op1: Op, b: Expr, op2: Op, c: Expr)
    requires IsU(a) && IsU(b) && IsU(c)
    ensures TreeOf(Yield(a) + [OpTok(op1)] + Yield(b) + [OpTok(op2)] + Yield(c)) ==
            Some(if Tighter(op1, op2) then Bin(op1, a, Bin(op2, b, c)) else Bin(op2, Bin(op1, a, b), c))
  {
    var ts := Yield(a) + [OpTok(op1)] + Yield(b) + [OpTok(op2)] + Yield(c);
    var right := Bin(op1, a, Bin(op2, b, c));
    var left := Bin(op2, Bin(op1, a, b), c);
    hide TreeOf;
    GroupingYields(a, op1, b, op2, c);
    GroupingIsDerivable(a, op1, b, op2, c);
    PrattIsTheGrammar(ts, if Tighter(op1, op2) then right else left);
  }

  lemma GroupingYields(a: Expr, op1: Op, b: Expr, op2: Op, c: Expr)
    ensures var ts := Yield(a) + [OpTok(op1)] + Yield(b) + [OpTok(op2)] + Yield(c);
            Yield(Bin(op1, a, Bin(op2, b, c))) == ts == Yield(Bin(op2, Bin(op1, a, b), c))
  {
    assert Yield(Bin(op2, b, c)) == Yield(b) + [OpTok(op2)] + Yield(c);
    assert Yield(Bin(op1, a, b)) == Yield(a) + [OpTok(op1)] + Yield(b);
  }

  lemma GroupingIsDerivable(a: Expr, op1: Op, b: Expr, op2: Op, c: Expr)
    requires IsU(a) && IsU(b) && IsU(c)
    ensures IsE(if Tighter(op1, op2) then Bin(op1, a, Bin(op2, b, c)) else Bin(op2, Bin(op1, a, b), c))
  {
    TopOperator(a); TopOperator(b); TopOperator(c);
    TopOperator(Bin(op2, b, c)); TopOperator(Bin(op1, a, b));
    TopOperator(Bin(op1, a, Bin(op2, b, c)));
    TopOperator(Bin(op2, Bin(op1, a, b), c));
  }
}
