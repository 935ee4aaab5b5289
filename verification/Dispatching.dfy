/** What answers to a command's name: an alias, `exit`, the shell itself, a program, or nobody. */
module Dispatching {
  import opened Ast
  import opened Decimal
  import opened Sem
  import opened Values
  import opened Calls
  import Print
  import EndToEnd
  import ExecLaws
  import P = Paths
  import T = VfsTree
  import V = VfsOps
  import L = VfsLaws
  import M = Mounts

  // ---------------------------------------------------------------- exit

  /** A numeral with or without a sign is its number if that has 32 bits. */
  lemma SignedNumeral(sign: string, digits: string)
    requires sign == "" || sign == "+" || sign == "-"
    requires digits != "" && AllDigits(digits)
    ensures var n: int := if sign == "-" then 0 - Value(digits) else Value(digits);
            ParseI32(sign + digits) == if -0x8000_0000 <= n <= 0x7fff_ffff then Some(n) else None
  {
    hide Value;
    var s := sign + digits;
    if sign != "" { assert s[1..] == digits && s[0] == sign[0]; } else { assert s == digits && IsDigit(s[0]); }
  }

  predicate IsNumeral(s: string) {
    || (s != "" && AllDigits(s))
    || (|s| > 1 && s[0] in "+-" && AllDigits(s[1..]))
  }

  lemma NoNumeral(s: string)
    requires !IsNumeral(s)
    ensures ParseI32(s) == None
  {
    hide Value;
  }

  /** The status that `exit` leaves with: its first argument if that is a number of 32 bits, else 0. */
  lemma ExitStatus(args: seq<string>, n: int)
    requires |args| > 1 && Denotes(args[1], n)
    ensures ExitArgument(args) == if -0x8000_0000 <= n <= 0x7fff_ffff then n else 0
  {
    hide Value;
    var s := args[1];
    if n < 0 {
      assert s == "-" + s[1..];
      SignedNumeral("-", s[1..]);
    } else {
      assert s == "" + s;
      SignedNumeral("", s);
    }
  }

  lemma ExitWithoutNumber(args: seq<string>)
    requires |args| <= 1 || !IsNumeral(args[1])
    ensures ExitArgument(args) == 0
  {
    if |args| > 1 { NoNumeral(args[1]); }
  }

  /** From text: `exit` with these arguments ends with that status, leaves it as the last one and
      changes nothing else. */
  lemma ExitFromText(w: World, args: seq<Word>, vals: seq<string>, st: St, s1: St, stdin: string)
    requires "exit" !in st.aliases && forall x :: x in args ==> Print.WfWord(x, false)
    requires ExpandWords(w, args, st) == Val(vals, s1)
    ensures var run := Sem.Exec(w, Print.PrintScript(EndToEnd.Call("exit", args)), st, stdin, []);
            && run.log == [] && run.code.Ok? && run.st == s1.(lastExit := run.code.value)
            && (forall n :: vals != [] && Denotes(vals[0], n) ==> run.code.value == if -0x8000_0000 <= n <= 0x7fff_ffff then n else 0)
            && (vals == [] || !IsNumeral(vals[0]) ==> run.code.value == 0)
  {
    hide RunCommand;
    hide RunScript;
    hide Print.PrintScript;
    hide Print.WfWord;
    hide ExpandWords;
    hide ExitArgument;
    hide Denotes;
    hide IsNumeral;
    var c := Simple(PlainCommand("exit", args));
    assert PlainName("exit") by { ExitIsPlain(); }
    CallIsPrintable("exit", args);
    ExecLaws.PrintedRuns(w, EndToEnd.Call("exit", args), st, stdin);
    ExecLaws.LoneCommand(w, c, st, stdin);
    CallRuns(w, "exit", args, vals, st, s1, stdin);
    RunsSimple(w, PlainCommand("exit", args), st, stdin);
    var argv := ["exit"] + vals;
    assert vals != [] ==> argv[1] == vals[0];
    forall n | vals != [] && Denotes(vals[0], n) ensures ExitArgument(argv) == if -0x8000_0000 <= n <= 0x7fff_ffff then n else 0 {
      ExitStatus(argv, n);
    }
    if vals == [] || !IsNumeral(vals[0]) { ExitWithoutNumber(argv); }
  }

  lemma ExitIsPlain()
    ensures PlainName("exit")
  {
    assert Print.WfWord(Literal("exit"), false);
  }

  // ---------------------------------------------------------------- the shell itself, and nobody

  /** From text: five names are answered by the shell itself, which may change everything but the
      mounts. */
  lemma IntrinsicFromText(w: World, name: string, args: seq<Word>, vals: seq<string>, st: St, s1: St, stdin: string)
    requires name in ["source", ".", "xargs", "which", "type"] && name !in st.aliases
    requires PlainName(name) && forall x :: x in args ==> Print.WfWord(x, false)
    requires ExpandWords(w, args, st) == Val(vals, s1)
    ensures var a := w.intrinsic(Call([name] + vals, stdin, s1));
            Sem.Exec(w, Print.PrintScript(EndToEnd.Call(name, args)), st, stdin, []) ==
            ExecLaws.Ended(Run(a.code, a.st.(mounts := s1.mounts, lastExit := if a.code.Ok? then a.code.value else a.st.lastExit), a.log))
  {
    hide RunCommand;
    hide RunScript;
    hide Print.PrintScript;
    hide Print.WfWord;
    hide ExpandWords;
    hide PlainName;
    var c := Simple(PlainCommand(name, args));
    CallIsPrintable(name, args);
    ExecLaws.PrintedRuns(w, EndToEnd.Call(name, args), st, stdin);
    ExecLaws.LoneCommand(w, c, st, stdin);
    CallRuns(w, name, args, vals, st, s1, stdin);
    RunsSimple(w, PlainCommand(name, args), st, stdin);
  }

  /** From text: a name that no program answers to. Without a slash the status is 127. With one it is
      126, and the message says whether there is something at that path, in the tree or on its mount. */
  lemma NotFoundFromText(w: World, name: string, args: seq<Word>, vals: seq<string>, st: St, s1: St, stdin: string)
    requires name !in ["exit", "source", ".", "xargs", "which", "type"] && name !in st.aliases
    requires !w.resolve(name, if "PATH" in s1.env then s1.env["PATH"] else "/usr/bin:/bin:/usr/local/bin")
    requires PlainName(name) && forall x :: x in args ==> Print.WfWord(x, false)
    requires ExpandWords(w, args, st) == Val(vals, s1)
    ensures var run := Sem.Exec(w, Print.PrintScript(EndToEnd.Call(name, args)), st, stdin, []);
            && ('/' !in name ==> run == Run(Ok(127), s1.(lastExit := 127), [ToErr(name + ": command not found\n")]))
            && ('/' in name && M.Route(s1.mounts, P.Normalize(P.Resolve(s1.cwd, name))).None? ==>
                  run == Run(Ok(126), s1.(lastExit := 126),
                             [ToErr("wasm_shell: " + name +
                                    if P.Canon(P.Resolve(s1.cwd, name)) in T.Flatten(s1.root) then ": Permission denied\n"
                                    else ": No such file or directory\n")]))
            && ('/' in name && M.Route(s1.mounts, P.Normalize(P.Resolve(s1.cwd, name))).Some? ==>
                  var (i, rel) := M.Route(s1.mounts, P.Normalize(P.Resolve(s1.cwd, name))).value;
                  var asked := w.mountStat(s1.mounts[i].point, rel, s1.host);
                  run == Run(Ok(126), s1.(host := asked.1, lastExit := 126),
                             [ToErr("wasm_shell: " + name + if asked.0 then ": Permission denied\n" else ": No such file or directory\n")]))
  {
    hide RunCommand;
    hide RunScript;
    hide Print.PrintScript;
    hide Print.WfWord;
    hide ExpandWords;
    hide PlainName;
    hide P.Resolve;
    hide V.IsThere;
    var c := Simple(PlainCommand(name, args));
    CallIsPrintable(name, args);
    ExecLaws.PrintedRuns(w, EndToEnd.Call(name, args), st, stdin);
    ExecLaws.LoneCommand(w, c, st, stdin);
    CallRuns(w, name, args, vals, st, s1, stdin);
    RunsSimple(w, PlainCommand(name, args), st, stdin);
    ThereIsInTheMap(s1.root, P.Resolve(s1.cwd, name));
  }

  lemma ThereIsInTheMap(root: T.Node, path: string)
    ensures V.IsThere(root, path) <==> P.Canon(path) in T.Flatten(root)
  {
    P.CanonIsCanonical(path);
    P.ComponentsOfRender(P.Canon(path));
    T.WalkRefinesLookup(root, P.Canon(path), P.Normalize(path));
  }

  // ---------------------------------------------------------------- aliases

  predicate IsGap(s: string) {
    s != "" && forall c :: c in s ==> c in " \t\n\r\U{000C}"
  }

  predicate IsAliasWord(s: string) {
    s != "" && forall c :: c in s ==> c !in " \t\n\r\U{000C}"
  }

  /** The words of an alias, each with a gap behind it. */
  function AliasText(words: seq<string>, gaps: seq<string>): string
    requires |gaps| == |words|
  {
    if words == [] then "" else words[0] + (gaps[0] + AliasText(words[1..], gaps[1..]))
  }

  lemma {:induction false} GapSplits(gap: string, rest: string)
    requires forall c :: c in gap ==> c in " \t\n\r\U{000C}"
    ensures SplitSpaces(gap + rest, "") == SplitSpaces(rest, "")
    decreases |gap|
  {
    if gap == "" {
      assert gap + rest == rest;
    } else {
      assert gap[0] in gap && (gap + rest)[1..] == gap[1..] + rest;
      GapSplits(gap[1..], rest);
      assert [] + SplitSpaces(rest, "") == SplitSpaces(rest, "");
    }
  }

  lemma {:induction false} WordSplits(sofar: string, word: string, gap: string, rest: string)
    requires IsGap(gap) && sofar + word != "" && forall c :: c in word ==> c !in " \t\n\r\U{000C}"
    ensures SplitSpaces(word + (gap + rest), sofar) == [sofar + word] + SplitSpaces(rest, "")
    decreases |word|
  {
    var s := word + (gap + rest);
    if word == "" {
      assert s == gap + rest && gap[0] in gap && s[1..] == gap[1..] + rest && sofar + word == sofar;
      GapSplits(gap[1..], rest);
    } else {
      assert word[0] in word && s[1..] == word[1..] + (gap + rest);
      WordSplits(sofar + [word[0]], word[1..], gap, rest);
      assert sofar + [word[0]] + word[1..] == sofar + word;
    }
  }

  /** An alias is split at its gaps, blanks in front of it meaning nothing. */
  lemma {:induction false} AliasSplits(words: seq<string>, gaps: seq<string>)
    requires |gaps| == |words| && (forall x :: x in words ==> IsAliasWord(x)) && (forall g :: g in gaps ==> IsGap(g))
    ensures SplitSpaces(AliasText(words, gaps), "") == words
    decreases |words|
  {
    hide SplitSpaces;
    if words == [] {
      assert SplitSpaces("", "") == [] by { NothingSplits(); }
    } else {
      assert words[0] in words && gaps[0] in gaps;
      AliasSplits(words[1..], gaps[1..]);
      WordSplits("", words[0], gaps[0], AliasText(words[1..], gaps[1..]));
      assert "" + words[0] == words[0] && words == [words[0]] + words[1..];
    }
  }

  lemma NothingSplits()
    ensures SplitSpaces("", "") == []
  {
  }

  /** An alias without words is none. */
  lemma EmptyAlias(aliases: map<string, string>, name: string)
    requires name in aliases && forall c :: c in aliases[name] ==> c in " \t\n\r\U{000C}"
    ensures Unalias(aliases, name) == [name]
  {
    hide SplitSpaces;
    GapSplits(aliases[name], "");
    NothingSplits();
    assert aliases[name] + "" == aliases[name];
  }

  /** From text: an alias puts its words in place of the name, once, in front of the arguments. */
  lemma AliasFromText(w: World, name: string, words: seq<string>, gaps: seq<string>, args: seq<Word>, vals: seq<string>, st: St, s1: St, stdin: string)
    requires words != [] && |gaps| == |words|
    requires (forall x :: x in words ==> IsAliasWord(x)) && (forall g :: g in gaps ==> IsGap(g))
    requires name in st.aliases && st.aliases[name] == AliasText(words, gaps)
    requires PlainName(name) && forall x :: x in args ==> Print.WfWord(x, false)
    requires ExpandWords(w, args, st) == Val(vals, s1) && IsProgram(w, words[0], map[], s1.env)
    ensures Sem.Exec(w, Print.PrintScript(EndToEnd.Call(name, args)), st, stdin, []) ==
            Seen(s1, w.program(Call(words + vals, stdin, s1)))
  {
    hide RunCommand;
    hide RunScript;
    hide Print.PrintScript;
    hide Print.WfWord;
    hide ExpandWords;
    hide Dispatch;
    hide SplitSpaces;
    hide AliasText;
    hide IsProgram;
    var sc := PlainCommand(name, args);
    CallIsPrintable(name, args);
    ExecLaws.PrintedRuns(w, EndToEnd.Call(name, args), st, stdin);
    ExecLaws.LoneCommand(w, Simple(sc), st, stdin);
    AliasSplits(words, gaps);
    assert Unalias(st.aliases, name) == words;
    var t := Table(ParentOut, ParentErr, stdin, []);
    assert AssignAll(w, [], st) == Val([], st);
    LiteralValue(w, name, st);
    assert RedirectAll(w, [], s1, t) == Val(t, s1);
    var argv := words + vals;
    assert argv[0] == words[0];
    var run := Dispatch(w, words[0], argv, stdin, s1);
    NothingRedirected(w, t, run.log, run.st);
    assert RestoreAll(run.st.env, []) == run.st.env;
    assert RunSimple(w, sc, st, stdin) == run;
    ProgramAnswers(w, words[0], argv, stdin, s1, map[]);
    RunsSimple(w, sc, st, stdin);
  }

  // ---------------------------------------------------------------- mounted files

  /** A mounted path is answered by its mount, which may change the outside; nothing of the shell's
      own changes. */
  lemma MountAnswers(w: World, st: St, path: string, data: string)
    requires M.Route(st.mounts, P.Normalize(path)).Some?
    ensures var (i, rel) := M.Route(st.mounts, P.Normalize(path)).value;
            var r, wr, s := w.mountRead(st.mounts[i].point, rel, st.host), w.mountWrite(st.mounts[i].point, rel, data, st.host),
                            w.mountStat(st.mounts[i].point, rel, st.host);
            && ReadFile(w, st, path) == (r.0, st.(host := r.1))
            && WriteFile(w, st, path, data) == (wr.0, st.(host := wr.1))
            && Exists(w, st, path) == (s.0, st.(host := s.1))
  {
    hide M.Route;
  }

  /** Appending to a mounted file asks for what is there, and then writes that and the new text behind
      it; a file that cannot be read counts as empty. */
  lemma MountedAppend(w: World, path: string, data: string, st: St)
    requires M.Route(st.mounts, P.Normalize(path)).Some?
    ensures var (i, rel) := M.Route(st.mounts, P.Normalize(path)).value;
            var before := w.mountRead(st.mounts[i].point, rel, st.host);
            var written := w.mountWrite(st.mounts[i].point, rel, (if before.0.Ok? then before.0.value else "") + data, before.1);
            var ev := FlushOne(w, OpenFile(path, true), data, st);
            && ev.st == st.(host := written.1)
            && (written.0.Ok? ==> ev.Val?) && (written.0.Err? ==> ev.Fail? && ev.error == VfsFailure(written.0.error))
  {
    hide M.Route;
    MountAnswers(w, st, path, data);
  }
}
