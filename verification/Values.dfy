/** What words expand to: variables and their operators, quoted and joined parts, numbers, and command
    substitutions. */
module Values {
  import opened Ast
  import opened Decimal
  import opened Sem
  import A = Arith
  import AV = ArithVars
  import Exec

  // ---------------------------------------------------------------- variables

  predicate IsSet(env: Env, name: string) {
    name in env && env[name] != ""
  }

  /** A variable in the environment expands to its value, any other to nothing. */
  lemma VariableValue(w: World, name: string, st: St)
    ensures name in st.env ==> ExpandWord(w, Variable(Named(name)), st) == Val(st.env[name], st)
    ensures name !in st.env ==> ExpandWord(w, Variable(Named(name)), st) == Val("", st)
  {
  }

  /** The operators ask whether the variable is set and not empty. `-` gives the operand otherwise, `=`
      also assigns it, `+` gives it then and nothing otherwise, `?` fails with it otherwise. */
  lemma OperatorTable(w: World, name: string, word: Word, st: St)
    ensures IsSet(st.env, name) ==>
              && ExpandWord(w, Variable(DefaultIfUnset(name, word)), st) == Val(st.env[name], st)
              && ExpandWord(w, Variable(AssignIfUnset(name, word)), st) == Val(st.env[name], st)
              && ExpandWord(w, Variable(ErrorIfUnset(name, word)), st) == Val(st.env[name], st)
              && ExpandWord(w, Variable(AlternateIfSet(name, word)), st) == ExpandWord(w, word, st)
    ensures !IsSet(st.env, name) ==>
              && ExpandWord(w, Variable(DefaultIfUnset(name, word)), st) == ExpandWord(w, word, st)
              && ExpandWord(w, Variable(AlternateIfSet(name, word)), st) == Val("", st)
    ensures var d := ExpandWord(w, word, st);
            !IsSet(st.env, name) && d.Val? ==>
              && ExpandWord(w, Variable(AssignIfUnset(name, word)), st) == Val(d.value, d.st.(env := d.st.env[name := d.value]))
              && ExpandWord(w, Variable(ErrorIfUnset(name, word)), st) ==
                 Fail(IoFailure(name + ": " + (if d.value == "" then "parameter null or not set" else d.value)), d.st)
    ensures var d := ExpandWord(w, word, st);
            !IsSet(st.env, name) && d.Fail? ==>
              && ExpandWord(w, Variable(AssignIfUnset(name, word)), st) == d
              && ExpandWord(w, Variable(ErrorIfUnset(name, word)), st) == d
  {
  }

  /** What `:=` assigned is what the variable expands to from then on. */
  lemma AssignedByDefault(w: World, name: string, word: Word, st: St)
    requires !IsSet(st.env, name) && ExpandWord(w, word, st).Val?
    ensures var d := ExpandWord(w, Variable(AssignIfUnset(name, word)), st);
            && d.Val? && d.value == ExpandWord(w, word, st).value
            && ExpandWord(w, Variable(Named(name)), d.st) == Val(d.value, d.st)
  {
    OperatorTable(w, name, word, st);
  }

  /** A decimal numeral without needless zeros, and the number it stands for. */
  predicate Denotes(s: string, n: int) {
    var digits := if n < 0 then s[if s == "" then 0 else 1..] else s;
    && (n < 0 ==> s != "" && s[0] == '-')
    && digits != "" && AllDigits(digits) && Value(digits) == (if n < 0 then -n else n)
    && (|digits| > 1 ==> digits[0] != '0')
  }

  lemma {:induction false} NoLeadingZero(n: nat)
    ensures Show(n) != "" && (|Show(n)| > 1 ==> Show(n)[0] != '0')
  {
    if n >= 10 { NoLeadingZero(n / 10); }
  }

  /** Statuses and results of arithmetic are written in decimal. */
  lemma IntTextDenotes(n: int)
    ensures Denotes(IntText(n), n)
  {
    hide Show;
    hide Value;
    var m := if n < 0 then -n else n;
    ValueOfShow(m);
    NoLeadingZero(m);
    if n < 0 { assert IntText(n)[1..] == Show(m); }
  }

  /** `${#x}` is the length of the value, 0 when there is none. */
  lemma LengthValue(w: World, name: string, st: St)
    ensures var ev := ExpandWord(w, Variable(Length(name)), st);
            ev.Val? && ev.st == st && Denotes(ev.value, if name in st.env then |st.env[name]| else 0)
  {
    var n := if name in st.env then |st.env[name]| else 0;
    IntTextDenotes(n);
    assert IntText(n) == Show(n);
  }

  /** `$?` is the last status; the other special parameters are fixed. */
  lemma SpecialValues(w: World, v: SpecialVar, st: St)
    ensures var ev := ExpandWord(w, Variable(Special(v)), st);
            && ev.Val? && ev.st == st
            && (v.LastExit? ==> Denotes(ev.value, st.lastExit))
            && (v.Hash? || v.LastBgPid? ==> ev.value == "0") && (v.Pid? ==> ev.value == "1")
            && (v.Positional? || v.Star? || v.At? ==> ev.value == "") && (v.Zero? ==> ev.value == "wasm_shell")
  {
    IntTextDenotes(st.lastExit);
  }

  // ---------------------------------------------------------------- literals and numbers

  /** A literal is itself, but for one that is `~` or starts with `~/`: there the home directory stands
      in place of the tilde, or the root when there is none. Quoted, a tilde is a tilde. */
  lemma TildeValue(w: World, rest: string, st: St)
    ensures rest == "" || rest[0] == '/' ==>
              ExpandWord(w, Literal("~" + rest), st) == Val((if "HOME" in st.env then st.env["HOME"] else "/") + rest, st)
    ensures ExpandWord(w, SingleQuoted("~" + rest), st) == Val("~" + rest, st)
    ensures ExpandPart(w, DQLiteral("~" + rest), st) == Val("~" + rest, st)
  {
    assert ("~" + rest)[1..] == rest;
    if rest != "" { assert ("~" + rest)[..2] == "~" + [rest[0]]; }
  }

  lemma LiteralValue(w: World, s: string, st: St)
    requires !(s != "" && s[0] == '~' && (|s| == 1 || s[1] == '/'))
    ensures ExpandWord(w, Literal(s), st) == Val(s, st)
  {
    if |s| >= 2 { assert s[..2] == [s[0], s[1]]; }
  }

  /** `$((...))` is the decimal text of the value, or the evaluator's failure. */
  lemma ArithmeticValue(w: World, expr: string, st: St)
    ensures var ev, o := ExpandWord(w, ArithSubst(expr), st), AV.EvalArith(w.profile, expr, st.env);
            && ev.st == st
            && (o.Ok? ==> ev.Val? && Denotes(ev.value, o.value))
            && (o.Err? ==> ev.Fail? && ev.error == ArithFailure(o.error))
            && (o.Panic? ==> ev.Fail? && ev.error == Panicked)
  {
    hide AV.EvalArith;
    hide Denotes;
    hide IntText;
    var o := AV.EvalArith(w.profile, expr, st.env);
    if o.Ok? { IntTextDenotes(o.value); }
  }

  // ---------------------------------------------------------------- parts in order

  function Joined(ss: seq<string>): string {
    if ss == [] then "" else ss[0] + Joined(ss[1..])
  }

  /** The k-th value is that of the k-th word, expanded in the state that the words in front of it
      left. */
  lemma {:induction false} WordsInOrder(w: World, ws: seq<Word>, st: St, k: nat)
    requires ExpandWords(w, ws, st).Val? && k < |ws|
    ensures |ExpandWords(w, ws, st).value| == |ws| && ExpandWords(w, ws[..k], st).Val?
    ensures var s := ExpandWords(w, ws[..k], st).st;
            && ExpandWord(w, ws[k], s).Val? && ExpandWords(w, ws, st).value[k] == ExpandWord(w, ws[k], s).value
            && (k + 1 == |ws| ==> ExpandWords(w, ws, st).st == ExpandWord(w, ws[k], s).st)
    decreases |ws|
  {
    hide ExpandWord;
    var one := ExpandWord(w, ws[0], st);
    if k == 0 {
      assert ws[..0] == [];
      if |ws| > 1 { WordsInOrder(w, ws[1..], one.st, 0); } else { assert ws[1..] == []; }
    } else {
      WordsInOrder(w, ws[1..], one.st, k - 1);
      assert ws[..k] == [ws[0]] + ws[1..][..k - 1] && ws[..k][1..] == ws[1..][..k - 1];
    }
  }

  /** Words side by side are their values side by side, or the first failure. */
  lemma {:induction false} ConcatJoins(w: World, ws: seq<Word>, st: St)
    ensures var all, one := ExpandWords(w, ws, st), ExpandWord(w, Concat(ws), st);
            one == if all.Val? then Val(Joined(all.value), all.st) else Fail(all.error, all.st)
    decreases |ws|
  {
    JoinedExpansion(w, ws, st);
  }

  lemma {:induction false} JoinedExpansion(w: World, ws: seq<Word>, st: St)
    ensures var all, one := ExpandWords(w, ws, st), ExpandConcat(w, ws, st);
            one == if all.Val? then Val(Joined(all.value), all.st) else Fail(all.error, all.st)
    decreases |ws|
  {
    hide ExpandWord;
    if ws != [] {
      var first := ExpandWord(w, ws[0], st);
      if first.Val? {
        JoinedExpansion(w, ws[1..], first.st);
        var more := ExpandWords(w, ws[1..], first.st);
        if more.Val? { assert ([first.value] + more.value)[1..] == more.value; }
      }
    }
  }

  /** A part inside double quotes as a word of its own. */
  function Unquoted(p: DQPart): Word {
    match p
    case DQLiteral(s) => SingleQuoted(s)
    case DQVariable(v) => Variable(v)
    case DQCommandSubst(script) => CommandSubst(script)
    case DQArithSubst(expr) => ArithSubst(expr)
  }

  function UnquotedAll(ps: seq<DQPart>): seq<Word> {
    if ps == [] then [] else [Unquoted(ps[0])] + UnquotedAll(ps[1..])
  }

  /** Double quotes keep literals as they are and join the parts; nothing else changes inside. */
  lemma {:induction false} QuotedPartsJoin(w: World, ps: seq<DQPart>, st: St)
    ensures ExpandWord(w, DoubleQuoted(ps), st) == ExpandWord(w, Concat(UnquotedAll(ps)), st)
  {
    PartsAreWords(w, ps, st);
  }

  lemma {:induction false} PartsAreWords(w: World, ps: seq<DQPart>, st: St)
    ensures ExpandParts(w, ps, st) == ExpandConcat(w, UnquotedAll(ps), st)
    decreases |ps|
  {
    hide ExpandVar;
    hide Capture;
    if ps != [] {
      assert UnquotedAll(ps)[1..] == UnquotedAll(ps[1..]);
      OnePart(w, ps[0], st);
      if ExpandPart(w, ps[0], st).Val? { PartsAreWords(w, ps[1..], ExpandPart(w, ps[0], st).st); }
    }
  }

  lemma OnePart(w: World, p: DQPart, st: St)
    ensures ExpandPart(w, p, st) == ExpandWord(w, Unquoted(p), st)
  {
  }

  // ---------------------------------------------------------------- command substitution

  /** What was written to descriptor 1, in the order in which it was written. */
  function OutputOf(log: Log): string {
    if log == [] then "" else (if log[0].ToOut? then log[0].data else "") + OutputOf(log[1..])
  }

  /** Everything that was written, in order. */
  function TextOf(log: Log): string {
    if log == [] then "" else log[0].data + TextOf(log[1..])
  }

  lemma {:induction false} OntoBothIsText(log: Log)
    ensures Onto(log, true, true) == TextOf(log)
  {
    if log != [] { OntoBothIsText(log[1..]); }
  }

  function Newlines(n: nat): string {
    if n == 0 then "" else "\n" + Newlines(n - 1)
  }

  /** The value is the output up to the newlines at its end. */
  predicate WithoutTail(value: string, output: string, n: nat) {
    output == value + Newlines(n) && (value == "" || value[|value| - 1] != '\n')
  }

  lemma {:induction false} NewlinesSnoc(n: nat)
    ensures Newlines(n) + "\n" == Newlines(n + 1)
  {
    if n > 0 {
      NewlinesSnoc(n - 1);
      assert "\n" + Newlines(n - 1) + "\n" == "\n" + (Newlines(n - 1) + "\n");
    }
  }

  lemma {:induction false} TrimTakesNewlines(s: string) returns (n: nat)
    ensures WithoutTail(TrimNewlines(s), s, n)
    decreases |s|
  {
    if s != "" && s[|s| - 1] == '\n' {
      n := TrimTakesNewlines(s[..|s| - 1]);
      NewlinesSnoc(n);
      assert s == s[..|s| - 1] + "\n" == TrimNewlines(s[..|s| - 1]) + (Newlines(n) + "\n");
      n := n + 1;
    } else {
      n := 0;
      assert s + "" == s;
    }
  }

  lemma {:induction false} OntoIsOutput(log: Log)
    ensures Onto(log, true, false) == OutputOf(log)
  {
    if log != [] { OntoIsOutput(log[1..]); }
  }

  /** A substitution whose script runs to its end, with empty input, has the value of what the script
      wrote to descriptor 1 without the newlines at the end, and leaves the script's state; otherwise
      it fails as the script does. What was written to descriptor 2 is nowhere in it. */
  lemma SubstitutionValue(w: World, script: seq<Command>, st: St) returns (n: nat)
    ensures var run, ev := RunScript(w, script, st, ""), ExpandWord(w, CommandSubst(script), st);
            && ev.st == run.st
            && (run.code.Ok? ==> ev.Val? && WithoutTail(ev.value, OutputOf(run.log), n))
            && (run.code.Err? ==> ev.Fail? && ev.error == run.code.error)
  {
    hide RunScript;
    hide Onto;
    var run := RunScript(w, script, st, "");
    n := TrimTakesNewlines(Onto(run.log, true, false));
    OntoIsOutput(run.log);
  }

  lemma NoLonger(a: string, b: string, output: string, m: nat, n: nat)
    requires WithoutTail(a, output, m) && WithoutTail(b, output, n)
    ensures |b| <= |a|
  {
    NewlinesAre(m);
    assert forall i :: |a| <= i < |output| ==> output[i] == Newlines(m)[i - |a|];
    assert b != "" ==> output[|b| - 1] == b[|b| - 1];
  }

  /** The value is determined by that. */
  lemma WithoutTailIsUnique(a: string, b: string, output: string, m: nat, n: nat)
    requires WithoutTail(a, output, m) && WithoutTail(b, output, n)
    ensures a == b
  {
    NoLonger(a, b, output, m, n);
    NoLonger(b, a, output, n, m);
    assert a == output[..|a|] && b == output[..|b|];
  }

  lemma {:induction false} NewlinesAre(n: nat)
    ensures |Newlines(n)| == n && forall k :: 0 <= k < n ==> Newlines(n)[k] == '\n'
  {
    if n > 0 { NewlinesAre(n - 1); }
  }
}
