/** Arithmetic expansion from the raw text between `$((` and `))`: variables are replaced as
    text, blanks around the expression are dropped, and the rest is evaluated. */
module ArithVars {
  import opened LexSpec
  import Ast
  import ParseSpec
  import A = Arith

  type Env = map<string, string>

  function ValueOr(env: Env, name: string, default: string): string {
    if name in env then env[name] else default
  }

  /** What the first character or reference of a text contributes, and how long it is. An unset
      variable is 0; an unclosed brace runs to the end. */
  function Piece(s: string, env: Env): (r: (string, nat))
    requires s != ""
    ensures 0 < r.1 <= |s|
  {
    if s[0] != '$' then ([s[0]], 1)
    else if |s| > 1 && s[1] == '{' then
      var n := Before(s[2..], '}');
      (ValueOr(env, s[2..][..n], "0"), if n + 2 < |s| then n + 3 else n + 2)
    else
      var n := NameRun(s[1..]);
      (if n == 0 then "$" else ValueOr(env, s[1..][..n], "0"), 1 + n)
  }

  /** Replaces every `$name` and `${name}`. */
  function ExpandVars(s: string, env: Env): string
    decreases |s|
  {
    if s == "" then "" else Piece(s, env).0 + ExpandVars(s[Piece(s, env).1..], env)
  }

  method ExpandArithVars(s: string, env: Env) returns (out: string)
    ensures out == ExpandVars(s, env)
  {
    hide Piece;
    out := "";
    var i := 0;
    assert s[0..] == s;
    while i < |s|
      invariant 0 <= i <= |s|
      invariant ExpandVars(s, env) == out + ExpandVars(s[i..], env)
    {
      var piece, used := ExpandOne(s, i, env);
      assert s[i..][used..] == s[i + used..];
      out := out + piece;
      i := i + used;
    }
  }

  method ExpandOne(s: string, start: nat, env: Env) returns (piece: string, used: nat)
    requires start < |s|
    ensures (piece, used) == Piece(s[start..], env)
  {
    var i := start;
    if s[i] != '$' { return [s[i]], 1; }
    i := i + 1;
    if i < |s| && s[i] == '{' {
      i := i + 1;
      var from := i;
      var n := Before(s[i..], '}');
      i := i + n;
      assert s[start..][2..] == s[from..] && s[from..][..n] == s[from..i];
      piece := ValueOr(env, s[from..i], "0");
      if i < |s| { i := i + 1; }
    } else {
      var n := NameRun(s[i..]);
      assert s[start..][1..] == s[i..] && s[i..][..n] == s[i..i + n];
      piece := if n == 0 then "$" else ValueOr(env, s[i..i + n], "0");
      i := i + n;
    }
    used := i - start;
  }

  /** What `$((expr))` evaluates to. */
  function EvalArith(p: A.Profile, expr: string, env: Env): A.Outcome<A.i64> {
    A.EvalText(p, ParseSpec.Trim(ExpandVars(expr, env)))
  }

  /** A text without `$` is evaluated as it stands. */
  lemma {:induction false} NothingToExpand(s: string, env: Env)
    requires '$' !in s
    ensures ExpandVars(s, env) == s
  {
    if s != "" {
      NothingToExpand(s[1..], env);
      assert [s[0]] + s[1..] == s;
    }
  }

  lemma PlainFirst(c: char, t: string, env: Env)
    requires c != '$'
    ensures ExpandVars([c] + t, env) == [c] + ExpandVars(t, env)
  {
    assert ([c] + t)[1..] == t;
  }

  /** Text without `$` stays in front of whatever the rest becomes. */
  lemma {:induction false} PlainBefore(before: string, t: string, env: Env)
    requires '$' !in before
    ensures ExpandVars(before + t, env) == before + ExpandVars(t, env)
  {
    hide ExpandVars;
    if before == "" {
      assert before + t == t && before + ExpandVars(t, env) == ExpandVars(t, env);
    } else {
      assert before + t == [before[0]] + (before[1..] + t);
      PlainFirst(before[0], before[1..] + t, env);
      PlainBefore(before[1..], t, env);
      assert [before[0]] + (before[1..] + ExpandVars(t, env)) == before + ExpandVars(t, env);
    }
  }

  lemma PieceOfReference(name: string, rest: string, env: Env)
    requires '}' !in name
    ensures var s := "${" + name + "}" + rest;
            Piece(s, env) == (if name in env then env[name] else "0", |name| + 3) && s[|name| + 3..] == rest
  {
    hide NameRun;
    hide Before;
    var s := "${" + name + "}" + rest;
    assert s[2..] == name + ("}" + rest);
    NameThenBrace(name, rest);
    assert s[2..][..|name|] == name;
  }

  /** A reference in braces is replaced by the variable's text, or 0, wherever it stands. */
  lemma ReferenceIsReplaced(before: string, name: string, rest: string, env: Env)
    requires '$' !in before && '}' !in name
    ensures ExpandVars(before + ("${" + name + "}" + rest), env) ==
            before + ((if name in env then env[name] else "0") + ExpandVars(rest, env))
  {
    hide Piece;
    PlainBefore(before, "${" + name + "}" + rest, env);
    PieceOfReference(name, rest, env);
  }

  /** A brace that is never closed names everything behind it. */
  lemma OpenReference(before: string, name: string, env: Env)
    requires '$' !in before && '}' !in name
    ensures ExpandVars(before + ("${" + name), env) == before + (if name in env then env[name] else "0")
  {
    hide ExpandVars;
    var s := "${" + name;
    PlainBefore(before, s, env);
    assert s[2..] == name;
    NoBrace(name);
    assert name[..|name|] == name && s[|name| + 2..] == "";
    assert Piece(s, env) == (if name in env then env[name] else "0", |name| + 2);
    WholePiece(s, env);
  }

  lemma WholePiece(s: string, env: Env)
    requires s != "" && Piece(s, env).1 == |s|
    ensures ExpandVars(s, env) == Piece(s, env).0
  {
    hide Piece;
    assert s[|s|..] == "" && ExpandVars("", env) == "";
    assert Piece(s, env).0 + "" == Piece(s, env).0;
  }

  lemma {:induction false} NoBrace(name: string)
    requires '}' !in name
    ensures Before(name, '}') == |name|
  {
    if name != "" { NoBrace(name[1..]); }
  }

  lemma {:induction false} NameStops(name: string, rest: string)
    requires (forall i :: 0 <= i < |name| ==> IsNameChar(name[i])) && (rest == "" || !IsNameChar(rest[0]))
    ensures NameRun(name + rest) == |name|
  {
    if name == "" {
      assert name + rest == rest;
    } else {
      assert (name + rest)[1..] == name[1..] + rest;
      NameStops(name[1..], rest);
    }
  }

  /** Without braces the name is as long as it can be. */
  lemma NameIsReplaced(before: string, name: string, rest: string, env: Env)
    requires '$' !in before && name != "" && (forall i :: 0 <= i < |name| ==> IsNameChar(name[i]))
    requires rest == "" || !IsNameChar(rest[0])
    ensures ExpandVars(before + ("$" + name + rest), env) ==
            before + ((if name in env then env[name] else "0") + ExpandVars(rest, env))
  {
    hide NameRun;
    var s := "$" + name + rest;
    PlainBefore(before, s, env);
    assert s[1..] == name + rest && s[1] == name[0];
    NameStops(name, rest);
    assert s[1..][..|name|] == name && s[1 + |name|..] == rest;
    assert Piece(s, env) == (if name in env then env[name] else "0", 1 + |name|);
  }

  /** A `$` in front of anything else stays. */
  lemma LoneDollarStays(before: string, rest: string, env: Env)
    requires '$' !in before && (rest == "" || (!IsNameChar(rest[0]) && rest[0] != '{'))
    ensures ExpandVars(before + ("$" + rest), env) == before + ("$" + ExpandVars(rest, env))
  {
    var s := "$" + rest;
    PlainBefore(before, s, env);
    assert s[1..] == rest;
    assert Piece(s, env) == ("$", 1);
  }

  lemma {:induction false} NameThenBrace(name: string, rest: string)
    requires '}' !in name
    ensures Before(name + ("}" + rest), '}') == |name|
  {
    if name != "" {
      assert (name + ("}" + rest))[1..] == name[1..] + ("}" + rest);
      NameThenBrace(name[1..], rest);
    }
  }
}
