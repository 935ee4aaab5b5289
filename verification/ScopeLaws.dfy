/** Laws of simple commands: scoped assignments come back, redirected writes land in one place. */
module ScopeLaws {
  import opened Ast
  import opened Sem
  import Exec
  import P = Paths
  import T = VfsTree
  import V = VfsOps
  import L = VfsLaws
  import M = Mounts

  // ---------------------------------------------------------------- the phases of a command

  /** Everything that happens before a named command is dispatched. */
  function Prepare(w: World, sc: SimpleCommand, st: St, stdin: string): Ev<(seq<Saved>, seq<string>, Table)>
    requires sc.name.Some?
  {
    var (saved, s1) :- AssignAll(w, sc.assignments, st);
    var (raw, s2) :- ExpandWord(w, sc.name.value, s1);
    var (args, s3) :- ExpandWords(w, sc.args, s2);
    var (t, s4) :- RedirectAll(w, sc.redirects, s3, Table(ParentOut, ParentErr, stdin, []));
    Val((saved, Unalias(s2.aliases, raw) + args, t), s4)
  }

  /** A command whose preparation fails has dispatched nothing and shown nothing. */
  lemma RunSimpleIsPrepareThenLaunch(w: World, sc: SimpleCommand, st: St, stdin: string)
    requires sc.name.Some?
    ensures RunSimple(w, sc, st, stdin) ==
            var p := Prepare(w, sc, st, stdin);
            if p.Fail? then Run(Err(p.error), p.st, []) else Launch(w, p.value.1, p.value.2, p.value.0, p.st)
  {
    hide ExpandWord;
    hide ExpandWords;
    hide RedirectAll;
    hide AssignAll;
    hide Launch;
  }

  /** The command gets through: it is dispatched and its files are written. */
  predicate Finishes(w: World, sc: SimpleCommand, st: St, stdin: string)
    requires sc.name.Some?
  {
    match Prepare(w, sc, st, stdin)
    case Fail(_, _) => false
    case Val((_, argv, t), s) =>
      var run := Dispatch(w, argv[0], argv, t.stdin, s);
      FlushAll(w, t, run.log, 0, run.st).Val?
  }

  /** The environment as the program left it. */
  function EnvOfProgram(w: World, sc: SimpleCommand, st: St, stdin: string): Env
    requires sc.name.Some? && Prepare(w, sc, st, stdin).Val?
  {
    var Val((_, argv, t), s) := Prepare(w, sc, st, stdin);
    Dispatch(w, argv[0], argv, t.stdin, s).st.env
  }

  lemma {:induction false} FlushKeepsTheShell(w: World, t: Table, log: Log, i: nat, st: St)
    ensures var after := FlushAll(w, t, log, i, st).st;
            after == st.(root := after.root, host := after.host)
    decreases |t.files| - i
  {
    if i < |t.files| {
      var one := FlushOne(w, t.files[i], Contents(t, log, i), st);
      if one.Val? { FlushKeepsTheShell(w, t, log, i + 1, one.st); }
    }
  }

  // ---------------------------------------------------------------- words without side effects

  predicate QuietWord(word: Word)
    decreases word
  {
    match word
    case Literal(_) => true
    case SingleQuoted(_) => true
    case DoubleQuoted(ps) => forall p :: p in ps ==> QuietPart(p)
    case Variable(v) => QuietVar(v)
    case CommandSubst(_) => false
    case ArithSubst(_) => true
    case HeredocWord(hd) => QuietBody(hd.body)
    case Concat(ws) => forall x :: x in ws ==> QuietWord(x)
  }

  predicate QuietPart(p: DQPart)
    decreases p
  {
    match p
    case DQLiteral(_) => true
    case DQVariable(v) => QuietVar(v)
    case DQCommandSubst(_) => false
    case DQArithSubst(_) => true
  }

  predicate QuietVar(v: VarExpr)
    decreases v
  {
    match v
    case Named(_) => true
    case DefaultIfUnset(_, x) => QuietWord(x)
    case AssignIfUnset(_, _) => false
    case AlternateIfSet(_, x) => QuietWord(x)
    case ErrorIfUnset(_, x) => QuietWord(x)
    case Length(_) => true
    case Special(_) => true
  }

  predicate QuietBody(b: HeredocBody)
    decreases b
  {
    match b
    case LiteralBody(_) => true
    case PartsBody(ps) => forall p :: p in ps ==> QuietPart(p)
  }

  /** Expanding a word without command substitution or `:=` changes nothing. */
  lemma QuietWordKeepsTheState(w: World, word: Word, st: St)
    requires QuietWord(word)
    ensures ExpandWord(w, word, st).st == st
    decreases word, 1
  {
    match word
    case DoubleQuoted(ps) => QuietPartsKeepTheState(w, ps, st);
    case Variable(v) => QuietVarKeepsTheState(w, v, st);
    case HeredocWord(hd) => if hd.body.PartsBody? { QuietPartsKeepTheState(w, hd.body.parts, st); }
    case Concat(ws) => QuietWordsKeepTheState(w, ws, st);
    case _ =>
  }

  lemma {:induction false} QuietWordsKeepTheState(w: World, ws: seq<Word>, st: St)
    requires forall x :: x in ws ==> QuietWord(x)
    ensures ExpandConcat(w, ws, st).st == st
    decreases ws, 0
  {
    if ws != [] {
      QuietWordKeepsTheState(w, ws[0], st);
      QuietWordsKeepTheState(w, ws[1..], st);
    }
  }

  lemma QuietPartKeepsTheState(w: World, p: DQPart, st: St)
    requires QuietPart(p)
    ensures ExpandPart(w, p, st).st == st
    decreases p, 0
  {
    if p.DQVariable? { QuietVarKeepsTheState(w, p.v, st); }
  }

  lemma {:induction false} QuietPartsKeepTheState(w: World, ps: seq<DQPart>, st: St)
    requires forall p :: p in ps ==> QuietPart(p)
    ensures ExpandParts(w, ps, st).st == st
    decreases ps, 0
  {
    if ps != [] {
      QuietPartKeepsTheState(w, ps[0], st);
      QuietPartsKeepTheState(w, ps[1..], st);
    }
  }

  lemma QuietVarKeepsTheState(w: World, v: VarExpr, st: St)
    requires QuietVar(v)
    ensures ExpandVar(w, v, st).st == st
    decreases v, 0
  {
    if v.DefaultIfUnset? || v.AlternateIfSet? || v.ErrorIfUnset? { QuietWordKeepsTheState(w, v.word, st); }
  }

  // ---------------------------------------------------------------- scoped assignments

  function Names(as_: seq<Assignment>): (r: seq<string>)
    ensures |r| == |as_| && forall i :: 0 <= i < |as_| ==> r[i] == as_[i].name
  {
    if as_ == [] then [] else [as_[0].name] + Names(as_[1..])
  }

  /** What the last note about `x` says. */
  function LastSaved(saved: seq<Saved>, x: string, otherwise: Option<string>): Option<string> {
    if saved == [] then otherwise
    else LastSaved(saved[1..], x, if saved[0].name == x then saved[0].old_ else otherwise)
  }

  lemma {:induction false} RestoreAllIsLastSaved(env: Env, saved: seq<Saved>, x: string)
    ensures Current(RestoreAll(env, saved), x) == LastSaved(saved, x, Current(env, x))
    decreases |saved|
  {
    if saved != [] { RestoreAllIsLastSaved(Restore(env, saved[0]), saved[1..], x); }
  }

  /** What `x` held just before the last of these assignments to it, its value being expanded already. */
  function BeforeTheLast(w: World, as_: seq<Assignment>, st: St, x: string): Option<string>
    decreases |as_|
  {
    if as_ == [] then Current(st.env, x)
    else
      match ExpandWord(w, as_[0].value, st)
      case Fail(_, _) => Current(st.env, x)
      case Val(v, s1) =>
        if x !in Names(as_[1..]) then Current(s1.env, x)
        else BeforeTheLast(w, as_[1..], s1.(env := s1.env[as_[0].name := v]), x)
  }

  lemma {:induction false} SavedIsBeforeTheLast(w: World, as_: seq<Assignment>, st: St, x: string, d: Option<string>)
    requires AssignAll(w, as_, st).Val?
    ensures LastSaved(AssignAll(w, as_, st).value, x, d) ==
            if x in Names(as_) then BeforeTheLast(w, as_, st, x) else d
    decreases |as_|
  {
    hide ExpandWord;
    if as_ != [] {
      var Val(v, s1) := ExpandWord(w, as_[0].value, st);
      var note := Saved(as_[0].name, Current(s1.env, as_[0].name));
      var st1 := s1.(env := s1.env[as_[0].name := v]);
      assert AssignAll(w, as_, st).value == [note] + AssignAll(w, as_[1..], st1).value;
      assert ([note] + AssignAll(w, as_[1..], st1).value)[1..] == AssignAll(w, as_[1..], st1).value;
      SavedIsBeforeTheLast(w, as_[1..], st1, x, if note.name == x then note.old_ else d);
    }
  }

  /** When a command gets through, every variable assigned in front of it holds what it held just
      before the last assignment to it, and every other variable what the program left there. */
  lemma VariablesAfterACommand(w: World, sc: SimpleCommand, st: St, stdin: string, x: string)
    requires sc.name.Some? && Finishes(w, sc, st, stdin)
    ensures Current(RunSimple(w, sc, st, stdin).st.env, x) ==
            if x in Names(sc.assignments) then BeforeTheLast(w, sc.assignments, st, x)
            else Current(EnvOfProgram(w, sc, st, stdin), x)
  {
    hide AssignAll;
    hide ExpandWord;
    hide ExpandWords;
    hide RedirectAll;
    hide Dispatch;
    hide FlushAll;
    hide RestoreAll;
    RunSimpleIsPrepareThenLaunch(w, sc, st, stdin);
    var Val((saved, argv, t), s) := Prepare(w, sc, st, stdin);
    var run := Dispatch(w, argv[0], argv, t.stdin, s);
    FlushKeepsTheShell(w, t, run.log, 0, run.st);
    RestoreAllIsLastSaved(run.st.env, saved, x);
    assert AssignAll(w, sc.assignments, st).Val? && AssignAll(w, sc.assignments, st).value == saved;
    SavedIsBeforeTheLast(w, sc.assignments, st, x, Current(run.st.env, x));
  }

  /** The variable is assigned by the k-th of these and by no other. */
  predicate Once(as_: seq<Assignment>, x: string, k: nat) {
    k < |as_| && forall i :: 0 <= i < |as_| ==> (as_[i].name == x <==> i == k)
  }

  /** Its last assignment is the k-th, the one before that the j-th. */
  predicate LastTwo(as_: seq<Assignment>, x: string, j: nat, k: nat) {
    j < k < |as_| && as_[j].name == as_[k].name == x && forall i :: j < i < |as_| ==> (as_[i].name == x <==> i == k)
  }

  /** The values assigned, in order. */
  function Values(w: World, as_: seq<Assignment>, st: St): (r: seq<string>)
    requires AssignAll(w, as_, st).Val?
    ensures |r| == |as_|
    decreases |as_|
  {
    if as_ == [] then []
    else
      var Val(v, s1) := ExpandWord(w, as_[0].value, st);
      [v] + Values(w, as_[1..], s1.(env := s1.env[as_[0].name := v]))
  }

  lemma FirstAssignment(w: World, as_: seq<Assignment>, st: St) returns (v: string, st1: St)
    requires as_ != [] && AssignAll(w, as_, st).Val? && forall a :: a in as_ ==> QuietWord(a.value)
    ensures ExpandWord(w, as_[0].value, st) == Val(v, st) && st1 == st.(env := st.env[as_[0].name := v])
    ensures AssignAll(w, as_[1..], st1).Val?
    ensures Values(w, as_, st) == [v] + Values(w, as_[1..], st1)
  {
    hide QuietWord;
    hide ExpandWord;
    assert as_[0] in as_;
    QuietWordKeepsTheState(w, as_[0].value, st);
    v := ExpandWord(w, as_[0].value, st).value;
    st1 := st.(env := st.env[as_[0].name := v]);
  }

  lemma {:induction false} OnceBefore(w: World, as_: seq<Assignment>, st: St, x: string, k: nat)
    requires Once(as_, x, k) && AssignAll(w, as_, st).Val?
    requires forall a :: a in as_ ==> QuietWord(a.value)
    ensures x in Names(as_) && BeforeTheLast(w, as_, st, x) == Current(st.env, x)
    decreases |as_|
  {
    hide QuietWord;
    hide ExpandWord;
    hide AssignAll;
    assert Names(as_)[k] == x;
    var v, st1 := FirstAssignment(w, as_, st);
    if k > 0 {
      OnceBefore(w, as_[1..], st1, x, k - 1);
    } else {
      assert forall i :: 0 <= i < |as_[1..]| ==> Names(as_[1..])[i] != x;
    }
  }

  lemma LaterAssignment(w: World, as_: seq<Assignment>, st: St, x: string)
    requires as_ != [] && x in Names(as_[1..]) && ExpandWord(w, as_[0].value, st).Val? && ExpandWord(w, as_[0].value, st).st == st
    ensures BeforeTheLast(w, as_, st, x) ==
            BeforeTheLast(w, as_[1..], st.(env := st.env[as_[0].name := ExpandWord(w, as_[0].value, st).value]), x)
  {
    hide ExpandWord;
  }

  lemma {:induction false} TwiceBefore(w: World, as_: seq<Assignment>, st: St, x: string, j: nat, k: nat)
    requires LastTwo(as_, x, j, k) && AssignAll(w, as_, st).Val?
    requires forall a :: a in as_ ==> QuietWord(a.value)
    ensures x in Names(as_) && BeforeTheLast(w, as_, st, x) == Some(Values(w, as_, st)[j])
    decreases |as_|
  {
    hide QuietWord;
    hide ExpandWord;
    hide AssignAll;
    hide Values;
    hide Names;
    hide BeforeTheLast;
    assert Names(as_)[k] == x && Names(as_[1..])[k - 1] == x;
    var v, st1 := FirstAssignment(w, as_, st);
    LaterAssignment(w, as_, st, x);
    if j == 0 {
      OnceBefore(w, as_[1..], st1, x, k - 1);
    } else {
      TwiceBefore(w, as_[1..], st1, x, j - 1, k - 1);
    }
  }

  /** A variable assigned once in front of a command gets its old value back, whatever the program
      did to it; so pairwise distinct variables all do. */
  lemma AssignedOnceIsUndone(w: World, sc: SimpleCommand, st: St, stdin: string, x: string, k: nat)
    requires sc.name.Some? && Finishes(w, sc, st, stdin)
    requires forall a :: a in sc.assignments ==> QuietWord(a.value)
    requires Once(sc.assignments, x, k)
    ensures Current(RunSimple(w, sc, st, stdin).st.env, x) == Current(st.env, x)
  {
    hide QuietWord;
    hide RunSimple;
    hide EnvOfProgram;
    hide AssignAll;
    VariablesAfterACommand(w, sc, st, stdin, x);
    OnceBefore(w, sc.assignments, st, x, k);
  }

  /** The restore runs forward, so a variable assigned more than once comes back with the value of
      its last assignment but one, and gets its old value back exactly when that is the same. */
  lemma AssignedTwiceComesBackWrong(w: World, sc: SimpleCommand, st: St, stdin: string, x: string, j: nat, k: nat)
    requires sc.name.Some? && Finishes(w, sc, st, stdin)
    requires forall a :: a in sc.assignments ==> QuietWord(a.value)
    requires LastTwo(sc.assignments, x, j, k)
    ensures AssignAll(w, sc.assignments, st).Val?
    ensures var after := Current(RunSimple(w, sc, st, stdin).st.env, x);
            && after == Some(Values(w, sc.assignments, st)[j])
            && (after == Current(st.env, x) <==> x in st.env && Values(w, sc.assignments, st)[j] == st.env[x])
  {
    hide QuietWord;
    hide RunSimple;
    hide EnvOfProgram;
    hide AssignAll;
    VariablesAfterACommand(w, sc, st, stdin, x);
    TwiceBefore(w, sc.assignments, st, x, j, k);
  }

  // ---------------------------------------------------------------- commands that do not get through

  predicate QuietTarget(t: RedirectTarget) {
    match t
    case ToWord(x) => QuietWord(x)
    case ToHeredoc(hd) => QuietBody(hd.body)
    case _ => true
  }

  /** No word of the command has a command substitution or `:=`. */
  predicate QuietCommand(sc: SimpleCommand) {
    && (forall a :: a in sc.assignments ==> QuietWord(a.value))
    && (sc.name.Some? ==> QuietWord(sc.name.value))
    && (forall x :: x in sc.args ==> QuietWord(x))
    && (forall r :: r in sc.redirects ==> QuietTarget(r.target))
  }

  /** What `x` holds when the assignments have been made, up to the first whose value fails. */
  function Assigned(w: World, as_: seq<Assignment>, st: St, x: string): Option<string>
    decreases |as_|
  {
    if as_ == [] then Current(st.env, x)
    else
      match ExpandWord(w, as_[0].value, st)
      case Fail(_, _) => Current(st.env, x)
      case Val(v, s1) => Assigned(w, as_[1..], s1.(env := s1.env[as_[0].name := v]), x)
  }

  lemma {:induction false} AssignedEnv(w: World, as_: seq<Assignment>, st: St, x: string)
    requires forall a :: a in as_ ==> QuietWord(a.value)
    ensures Current(AssignAll(w, as_, st).st.env, x) == Assigned(w, as_, st, x)
    decreases |as_|
  {
    hide QuietWord;
    hide ExpandWord;
    if as_ != [] {
      assert as_[0] in as_;
      QuietWordKeepsTheState(w, as_[0].value, st);
      var ev := ExpandWord(w, as_[0].value, st);
      if ev.Val? { AssignedEnv(w, as_[1..], st.(env := st.env[as_[0].name := ev.value]), x); }
    }
  }

  /** The k-th assignment is the last one to `x`. */
  predicate LastOne(as_: seq<Assignment>, x: string, k: nat) {
    k < |as_| && as_[k].name == x && forall i :: k < i < |as_| ==> as_[i].name != x
  }

  /** When all values expand, that is the last value assigned to it, or what it held before. */
  lemma {:induction false} AssignedIsTheLastValue(w: World, as_: seq<Assignment>, st: St, x: string)
    requires AssignAll(w, as_, st).Val? && forall a :: a in as_ ==> QuietWord(a.value)
    ensures forall k: nat :: LastOne(as_, x, k) ==> Assigned(w, as_, st, x) == Some(Values(w, as_, st)[k])
    ensures x !in Names(as_) ==> Assigned(w, as_, st, x) == Current(st.env, x)
    decreases |as_|
  {
    hide QuietWord;
    hide ExpandWord;
    hide AssignAll;
    hide Values;
    if as_ != [] {
      var v, st1 := FirstAssignment(w, as_, st);
      AssignedIsTheLastValue(w, as_[1..], st1, x);
      forall k: nat | LastOne(as_, x, k) ensures Assigned(w, as_, st, x) == Some(Values(w, as_, st)[k]) {
        if k > 0 {
          assert LastOne(as_[1..], x, k - 1);
        } else {
          assert forall i :: 0 <= i < |as_[1..]| ==> Names(as_[1..])[i] != x;
        }
      }
    }
  }

  lemma {:induction false} QuietArgumentsKeepTheState(w: World, ws: seq<Word>, st: St)
    requires forall x :: x in ws ==> QuietWord(x)
    ensures ExpandWords(w, ws, st).st == st
    decreases |ws|
  {
    hide QuietWord;
    hide ExpandWord;
    if ws != [] {
      assert ws[0] in ws;
      QuietWordKeepsTheState(w, ws[0], st);
      QuietArgumentsKeepTheState(w, ws[1..], st);
    }
  }

  lemma QuietRedirectKeepsTheEnv(w: World, r: Redirect, st: St, t: Table)
    requires QuietTarget(r.target)
    ensures Redirected(w, r, st, t).st.env == st.env
  {
    hide ExpandWord;
    hide QuietWord;
    hide ExpandParts;
    match r.target
    case ToWord(x) => QuietWordKeepsTheState(w, x, st);
    case ToHeredoc(hd) => if hd.body.PartsBody? { QuietPartsKeepTheState(w, hd.body.parts, st); }
    case _ =>
  }

  lemma {:induction false} QuietRedirectsKeepTheEnv(w: World, rs: seq<Redirect>, st: St, t: Table)
    requires forall r :: r in rs ==> QuietTarget(r.target)
    ensures RedirectAll(w, rs, st, t).st.env == st.env
    decreases |rs|
  {
    hide Redirected;
    hide QuietTarget;
    if rs != [] {
      assert rs[0] in rs;
      QuietRedirectKeepsTheEnv(w, rs[0], st, t);
      var one := Redirected(w, rs[0], st, t);
      if one.Val? { QuietRedirectsKeepTheEnv(w, rs[1..], one.st, one.value); }
    }
  }

  /** Preparing a quiet command changes the environment by its assignments alone, also when it fails
      on the way, wherever that is. */
  lemma QuietPreparation(w: World, sc: SimpleCommand, st: St, stdin: string, x: string)
    requires sc.name.Some? && QuietCommand(sc)
    ensures Current(Prepare(w, sc, st, stdin).st.env, x) == Assigned(w, sc.assignments, st, x)
  {
    hide QuietWord;
    hide QuietTarget;
    hide ExpandWord;
    hide ExpandWords;
    hide AssignAll;
    hide RedirectAll;
    hide Unalias;
    AssignedEnv(w, sc.assignments, st, x);
    var a := AssignAll(w, sc.assignments, st);
    if a.Val? {
      QuietWordKeepsTheState(w, sc.name.value, a.st);
      QuietArgumentsKeepTheState(w, sc.args, a.st);
      QuietRedirectsKeepTheEnv(w, sc.redirects, a.st, Table(ParentOut, ParentErr, stdin, []));
    }
  }

  /** What every variable holds after a quiet command, in every case. Nothing is put back unless the
      command gets through: when a value, the name, an argument or a redirection fails, what was
      assigned up to then stays; when a file cannot be written, everything stays as the program left
      it, the assignments that were meant for the program alone included. */
  lemma VariablesInEveryCase(w: World, sc: SimpleCommand, st: St, stdin: string, x: string)
    requires sc.name.Some? && QuietCommand(sc)
    ensures Current(RunSimple(w, sc, st, stdin).st.env, x) ==
            if Prepare(w, sc, st, stdin).Fail? then Assigned(w, sc.assignments, st, x)
            else if x in Names(sc.assignments) && Finishes(w, sc, st, stdin) then BeforeTheLast(w, sc.assignments, st, x)
            else Current(EnvOfProgram(w, sc, st, stdin), x)
  {
    hide QuietWord;
    hide ExpandWord;
    hide ExpandWords;
    hide AssignAll;
    hide RedirectAll;
    hide Dispatch;
    hide FlushAll;
    hide RestoreAll;
    RunSimpleIsPrepareThenLaunch(w, sc, st, stdin);
    match Prepare(w, sc, st, stdin)
    case Fail(_, _) => QuietPreparation(w, sc, st, stdin, x);
    case Val((_, argv, t), s) =>
      if Finishes(w, sc, st, stdin) {
        VariablesAfterACommand(w, sc, st, stdin, x);
      } else {
        var run := Dispatch(w, argv[0], argv, t.stdin, s);
        FlushKeepsTheShell(w, t, run.log, 0, run.st);
      }
  }

  // ---------------------------------------------------------------- commands that get through

  /** Words whose expansion cannot fail, judged without expanding them. */
  predicate SureWord(word: Word)
    decreases word
  {
    match word
    case Literal(_) => true
    case SingleQuoted(_) => true
    case DoubleQuoted(ps) => SureParts(ps)
    case Variable(v) => v.Named? || v.Length? || v.Special?
    case Concat(ws) => SureWords(ws)
    case _ => false
  }

  predicate SureWords(ws: seq<Word>)
    decreases ws
  {
    ws == [] || (SureWord(ws[0]) && SureWords(ws[1..]))
  }

  predicate SureParts(ps: seq<DQPart>)
    decreases ps
  {
    ps == [] || ((ps[0].DQLiteral? || (ps[0].DQVariable? && (ps[0].v.Named? || ps[0].v.Length? || ps[0].v.Special?))) && SureParts(ps[1..]))
  }

  lemma SureVarExpands(w: World, v: VarExpr, st: St)
    requires v.Named? || v.Length? || v.Special?
    ensures ExpandVar(w, v, st).Val?
  {
  }

  lemma {:induction false} SurePartsExpand(w: World, ps: seq<DQPart>, st: St)
    requires SureParts(ps)
    ensures ExpandParts(w, ps, st).Val?
    decreases |ps|
  {
    if ps != [] {
      var part := ps[0];
      assert ExpandPart(w, part, st).Val? by { if part.DQVariable? { SureVarExpands(w, part.v, st); } }
      SurePartsExpand(w, ps[1..], ExpandPart(w, part, st).st);
    }
  }

  lemma {:induction false} SureWordExpands(w: World, word: Word, st: St)
    requires SureWord(word)
    ensures ExpandWord(w, word, st).Val?
    decreases word, 1
  {
    match word
    case Literal(_) =>
    case SingleQuoted(_) =>
    case DoubleQuoted(ps) => SurePartsExpand(w, ps, st);
    case Variable(v) =>
    case Concat(ws) => SureConcatExpands(w, ws, st);
  }

  lemma {:induction false} SureConcatExpands(w: World, ws: seq<Word>, st: St)
    requires SureWords(ws)
    ensures ExpandConcat(w, ws, st).Val?
    decreases ws, 0
  {
    hide ExpandWord;
    if ws != [] {
      SureWordExpands(w, ws[0], st);
      SureConcatExpands(w, ws[1..], ExpandWord(w, ws[0], st).st);
    }
  }

  lemma {:induction false} SureArgumentsExpand(w: World, ws: seq<Word>, st: St)
    requires SureWords(ws)
    ensures ExpandWords(w, ws, st).Val?
    decreases |ws|
  {
    hide ExpandWord;
    if ws != [] {
      SureWordExpands(w, ws[0], st);
      SureArgumentsExpand(w, ws[1..], ExpandWord(w, ws[0], st).st);
    }
  }

  predicate SureAssignments(as_: seq<Assignment>) {
    forall a :: a in as_ ==> SureWord(a.value)
  }

  lemma {:induction false} SureAssignmentsSucceed(w: World, as_: seq<Assignment>, st: St)
    requires SureAssignments(as_)
    ensures AssignAll(w, as_, st).Val?
    decreases |as_|
  {
    hide ExpandWord;
    hide SureWord;
    if as_ != [] {
      assert as_[0] in as_;
      SureWordExpands(w, as_[0].value, st);
      var ev := ExpandWord(w, as_[0].value, st);
      SureAssignmentsSucceed(w, as_[1..], ev.st.(env := ev.st.env[as_[0].name := ev.value]));
    }
  }

  /** Redirections that neither read nor open a file. */
  predicate FilelessRedirects(rs: seq<Redirect>) {
    forall r :: r in rs ==> r.target.ToFd? || r.target.CloseFd?
  }

  lemma {:induction false} FilelessRedirectsSucceed(w: World, rs: seq<Redirect>, st: St, t: Table)
    requires FilelessRedirects(rs)
    ensures RedirectAll(w, rs, st, t).Val? && RedirectAll(w, rs, st, t).value.files == t.files
    decreases |rs|
  {
    if rs != [] {
      assert rs[0] in rs;
      var one := Redirected(w, rs[0], st, t);
      FilelessRedirectsSucceed(w, rs[1..], one.st, one.value);
    }
  }

  /** A command of plain words that opens no file always gets through, whatever the state and
      whatever its program does. */
  lemma PlainCommandsFinish(w: World, sc: SimpleCommand, st: St, stdin: string)
    requires sc.name.Some? && SureAssignments(sc.assignments) && SureWord(sc.name.value) && SureWords(sc.args)
    requires FilelessRedirects(sc.redirects)
    ensures Finishes(w, sc, st, stdin)
  {
    hide ExpandWord;
    hide ExpandWords;
    hide AssignAll;
    hide RedirectAll;
    hide Dispatch;
    hide SureWord;
    hide SureWords;
    hide Unalias;
    var t := Table(ParentOut, ParentErr, stdin, []);
    SureAssignmentsSucceed(w, sc.assignments, st);
    var s1 := AssignAll(w, sc.assignments, st).st;
    SureWordExpands(w, sc.name.value, s1);
    var s2 := ExpandWord(w, sc.name.value, s1).st;
    SureArgumentsExpand(w, sc.args, s2);
    FilelessRedirectsSucceed(w, sc.redirects, ExpandWords(w, sc.args, s2).st, t);
  }

  // ---------------------------------------------------------------- redirections

  /** Every descriptor leads to one of the command's own or to a file that was opened. */
  predicate InRange(t: Table) {
    (t.out.File? ==> t.out.i < |t.files|) && (t.err.File? ==> t.err.i < |t.files|)
  }

  /** Redirections only add files, and keep every descriptor on something that exists. */
  lemma {:induction false} RedirectAllKeepsRange(w: World, rs: seq<Redirect>, st: St, t: Table)
    requires InRange(t)
    ensures var ev := RedirectAll(w, rs, st, t);
            ev.Val? ==> InRange(ev.value) && t.files <= ev.value.files
    decreases rs
  {
    hide ExpandWord;
    hide ExpandHeredoc;
    hide ReadFile;
    if rs != [] {
      var one := Redirected(w, rs[0], st, t);
      if one.Val? { RedirectAllKeepsRange(w, rs[1..], one.st, one.value); }
    }
  }

  /** What reaches a sink, in the order in which it was written. */
  function Received(t: Table, log: Log, sink: Sink): string {
    match sink
    case ParentOut => Onto(Inherited(t, log), true, false)
    case ParentErr => Onto(Inherited(t, log), false, true)
    case File(i) => Contents(t, log, i)
  }

  lemma {:induction false} InheritedConcat(t: Table, a: Log, b: Log)
    ensures Inherited(t, a + b) == Inherited(t, a) + Inherited(t, b)
  {
    hide InheritedOne;
    if a == [] {
      assert a + b == b;
    } else {
      assert (a + b)[0] == a[0] && (a + b)[1..] == a[1..] + b;
      InheritedConcat(t, a[1..], b);
    }
  }

  lemma ReceivedConcat(t: Table, a: Log, b: Log, sink: Sink)
    ensures Received(t, a + b, sink) == Received(t, a, sink) + Received(t, b, sink)
  {
    hide Onto;
    hide Inherited;
    InheritedConcat(t, a, b);
    match sink
    case ParentOut => Exec.OntoConcat(Inherited(t, a), Inherited(t, b), true, false);
    case ParentErr => Exec.OntoConcat(Inherited(t, a), Inherited(t, b), false, true);
    case File(i) => Exec.OntoConcat(a, b, t.out == File(i), t.err == File(i));
  }

  lemma OneWrite(t: Table, o: Output, sink: Sink)
    ensures Received(t, [o], sink) == if sink == SinkOf(t, o) then o.data else ""
  {
    hide Onto;
    assert [o][1..] == [] && Inherited(t, []) == [];
    assert InheritedOne(t, o) + [] == InheritedOne(t, o) == Inherited(t, [o]);
    OntoOne(ToOut(o.data));
    OntoOne(ToErr(o.data));
  }

  lemma OntoOne(o: Output)
    ensures forall out, err :: Onto([o], out, err) == (if (o.ToOut? && out) || (o.ToErr? && err) then o.data else "")
    ensures forall out, err :: Onto([], out, err) == ""
  {
    assert [o][1..] == [] && o.data + "" == o.data && "" + "" == "";
  }

  /** Every single write of a program lands in exactly one place, between what was written there
      before it and after it, and nowhere else. */
  lemma EachWriteHasOneSink(t: Table, log: Log, k: nat, sink: Sink)
    requires k < |log|
    ensures Received(t, log, sink) ==
            Received(t, log[..k], sink) + (if sink == SinkOf(t, log[k]) then log[k].data else "") +
            Received(t, log[k + 1..], sink)
  {
    hide Received;
    assert log == log[..k] + [log[k]] + log[k + 1..];
    ReceivedConcat(t, log[..k] + [log[k]], log[k + 1..], sink);
    ReceivedConcat(t, log[..k], [log[k]], sink);
    OneWrite(t, log[k], sink);
  }

  /** What all files from the i-th on receive. */
  function FilesReceive(t: Table, log: Log, i: nat): multiset<char>
    decreases |t.files| - i
  {
    if i >= |t.files| then multiset{} else multiset(Contents(t, log, i)) + FilesReceive(t, log, i + 1)
  }

  lemma {:induction false} NothingReceived(t: Table, i: nat)
    ensures FilesReceive(t, [], i) == multiset{}
    decreases |t.files| - i
  {
    if i < |t.files| { NothingReceived(t, i + 1); }
  }

  lemma NothingLands(t: Table)
    ensures Onto([], true, true) == "" == Onto(Inherited(t, []), true, true)
    ensures FilesReceive(t, [], 0) == multiset{}
  {
    NothingReceived(t, 0);
  }

  lemma ContentsStep(t: Table, log: Log, i: nat)
    requires log != []
    ensures multiset(Contents(t, log, i)) ==
            Share(t, log[0], i) + multiset(Contents(t, log[1..], i))
  {
  }

  /** What one write adds to the i-th file. */
  function Share(t: Table, o: Output, i: nat): multiset<char> {
    if SinkOf(t, o) == File(i) then multiset(o.data) else multiset{}
  }

  lemma {:induction false} OneMoreReceived(t: Table, log: Log, i: nat)
    requires log != []
    ensures var sink := SinkOf(t, log[0]);
            FilesReceive(t, log, i) == FilesReceive(t, log[1..], i) +
            (if sink.File? && i <= sink.i < |t.files| then multiset(log[0].data) else multiset{})
    decreases |t.files| - i
  {
    hide Contents;
    if i < |t.files| {
      OneMoreReceived(t, log, i + 1);
      ContentsStep(t, log, i);
    }
  }

  lemma InheritedStep(t: Table, log: Log)
    requires log != []
    ensures multiset(Onto(Inherited(t, log), true, true)) ==
            (if SinkOf(t, log[0]).File? then multiset{} else multiset(log[0].data)) +
            multiset(Onto(Inherited(t, log[1..]), true, true))
    ensures multiset(Onto(log, true, true)) == multiset(log[0].data) + multiset(Onto(log[1..], true, true))
  {
    Exec.OntoConcat(InheritedOne(t, log[0]), Inherited(t, log[1..]), true, true);
  }

  /** Every character a program writes to descriptor 1 or 2 lands in exactly one place: the
      command's own output or error, or one of the opened files. */
  lemma {:induction false} EveryByteLandsOnce(t: Table, log: Log)
    requires InRange(t)
    ensures multiset(Onto(log, true, true)) ==
            multiset(Onto(Inherited(t, log), true, true)) + FilesReceive(t, log, 0)
  {
    hide Onto;
    hide Inherited;
    hide FilesReceive;
    if log == [] {
      NothingLands(t);
    } else {
      EveryByteLandsOnce(t, log[1..]);
      OneMoreReceived(t, log, 0);
      InheritedStep(t, log);
    }
  }

  /** `> f` for a file named by a word. */
  function OutTo(f: Word): Redirect {
    Redirect(Some(1), Write, ToWord(f))
  }

  /** `2>&1` */
  const ErrToOut := Redirect(Some(2), Write, ToFd(1))

  /** The two orders: `>f 2>&1` sends both descriptors to the file, `2>&1 >f` leaves descriptor 2 on
      what descriptor 1 was before. */
  lemma OrderMatters(w: World, f: Word, st: St, t: Table, text: string, st1: St)
    requires ExpandWord(w, f, st) == Val(text, st1)
    ensures var file, files := File(|t.files|), t.files + [OpenFile(P.Resolve(st1.cwd, text), false)];
            && RedirectAll(w, [OutTo(f), ErrToOut], st, t) == Val(t.(out := file, err := file, files := files), st1)
            && RedirectAll(w, [ErrToOut, OutTo(f)], st, t) == Val(t.(out := file, err := t.out, files := files), st1)
  {
    hide ExpandWord;
    hide P.Resolve;
    var file, files := File(|t.files|), t.files + [OpenFile(P.Resolve(st1.cwd, text), false)];
    assert Redirected(w, OutTo(f), st, t) == Val(t.(out := file, files := files), st1);
    assert Redirected(w, OutTo(f), st, t.(err := t.out)) == Val(t.(out := file, err := t.out, files := files), st1);
    TwoRedirects(w, OutTo(f), ErrToOut, st, t);
    TwoRedirects(w, ErrToOut, OutTo(f), st, t);
  }

  lemma {:induction false} TwoRedirects(w: World, a: Redirect, b: Redirect, st: St, t: Table)
    ensures RedirectAll(w, [a, b], st, t) ==
            var r := Redirected(w, a, st, t);
            if r.Fail? then Fail(r.error, r.st) else Redirected(w, b, r.st, r.value)
  {
    hide Redirected;
    assert [a, b][1..] == [b] && [b][1..] == [];
    var ev := Redirected(w, a, st, t);
    if ev.Val? {
      var ev2 := Redirected(w, b, ev.st, ev.value);
      assert RedirectAll(w, [b], ev.st, ev.value) == ev2 by {
        if ev2.Val? { assert RedirectAll(w, [], ev2.st, ev2.value) == ev2; }
      }
    }
  }

  lemma {:induction false} NothingInherited(t: Table, log: Log)
    requires t.out.File? && t.err.File?
    ensures Inherited(t, log) == []
  {
    if log != [] { NothingInherited(t, log[1..]); }
  }

  /** `cmd >f 2>&1` shows nothing, and afterwards reading the file gives everything the program
      wrote on either descriptor, in order. */
  lemma BothToFile(w: World, sc: SimpleCommand, f: Word, st: St, stdin: string)
    requires sc.name.Some? && sc.redirects == [OutTo(f), ErrToOut] && Finishes(w, sc, st, stdin)
    ensures var Val((_, argv, t), s) := Prepare(w, sc, st, stdin);
            var prog := Dispatch(w, argv[0], argv, t.stdin, s);
            var run := RunSimple(w, sc, st, stdin);
            && run.log == [] && |t.files| == 1
            && (Plain(prog.st, t.files[0].path) ==>
                  ReadFile(w, run.st, t.files[0].path).0 == T.Ok(Onto(prog.log, true, true)))
  {
    hide Finishes;
    hide Dispatch;
    hide RunSimple;
    hide ReadFile;
    hide Plain;
    var t, prog := OneFile(w, sc, f, st, stdin);
    NothingInherited(t, prog.log);
  }

  /** `cmd 2>&1 >f` shows what the program wrote on descriptor 2, on descriptor 1; the file gets the
      rest. */
  lemma ErrorsShownOutputToFile(w: World, sc: SimpleCommand, f: Word, st: St, stdin: string)
    requires sc.name.Some? && sc.redirects == [ErrToOut, OutTo(f)] && Finishes(w, sc, st, stdin)
    ensures var Val((_, argv, t), s) := Prepare(w, sc, st, stdin);
            var prog := Dispatch(w, argv[0], argv, t.stdin, s);
            var run := RunSimple(w, sc, st, stdin);
            && Onto(run.log, true, false) == Onto(prog.log, false, true) && Onto(run.log, false, true) == ""
            && |t.files| == 1
            && (Plain(prog.st, t.files[0].path) ==>
                  ReadFile(w, run.st, t.files[0].path).0 == T.Ok(Onto(prog.log, true, false)))
  {
    hide Finishes;
    hide Dispatch;
    hide RunSimple;
    hide ReadFile;
    hide Plain;
    hide Onto;
    hide Inherited;
    var t, prog := OneFile(w, sc, f, st, stdin);
    Exec.InheritedOnto(t, prog.log, false);
    Exec.OntoNeither(prog.log);
  }

  /** An unmounted path that is not a device. */
  predicate Plain(st: St, path: string) {
    M.Route(st.mounts, P.Normalize(path)).None? && !L.IsDevice(st.root, path)
  }

  /** What the two orders have in common. */
  lemma OneFile(w: World, sc: SimpleCommand, f: Word, st: St, stdin: string) returns (t: Table, prog: Run)
    requires sc.name.Some? && Finishes(w, sc, st, stdin)
    requires sc.redirects == [OutTo(f), ErrToOut] || sc.redirects == [ErrToOut, OutTo(f)]
    ensures t == Prepare(w, sc, st, stdin).value.2
    ensures var Val((_, argv, _), s) := Prepare(w, sc, st, stdin);
            prog == Dispatch(w, argv[0], argv, t.stdin, s)
    ensures |t.files| == 1 && t.out == File(0)
    ensures t.err == if sc.redirects == [OutTo(f), ErrToOut] then File(0) else ParentOut
    ensures RunSimple(w, sc, st, stdin).log == Inherited(t, prog.log)
    ensures Plain(prog.st, t.files[0].path) ==>
              ReadFile(w, RunSimple(w, sc, st, stdin).st, t.files[0].path).0 == T.Ok(Contents(t, prog.log, 0))
  {
    hide Dispatch;
    hide ExpandWord;
    hide ExpandWords;
    hide AssignAll;
    hide Plain;
    hide ReadFile;
    hide RestoreAll;
    hide Contents;
    hide RedirectAll;
    hide FlushAll;
    RunSimpleIsPrepareThenLaunch(w, sc, st, stdin);
    var Val((saved, argv, table), s) := Prepare(w, sc, st, stdin);
    t := table;
    prog := Dispatch(w, argv[0], argv, t.stdin, s);
    TableOf(w, sc, f, st, stdin);
    FlushKeepsTheShell(w, t, prog.log, 0, prog.st);
    if Plain(prog.st, t.files[0].path) { FlushedIsRead(w, t, prog.log, prog.st); }
  }

  lemma TableOf(w: World, sc: SimpleCommand, f: Word, st: St, stdin: string)
    requires sc.name.Some? && Prepare(w, sc, st, stdin).Val?
    requires sc.redirects == [OutTo(f), ErrToOut] || sc.redirects == [ErrToOut, OutTo(f)]
    ensures var t := Prepare(w, sc, st, stdin).value.2;
            && |t.files| == 1 && t.out == File(0) && !t.files[0].append
            && t.err == if sc.redirects == [OutTo(f), ErrToOut] then File(0) else ParentOut
  {
    hide Dispatch;
    hide ExpandWord;
    hide ExpandWords;
    hide AssignAll;
    hide RedirectAll;
    var Val(_, s1) := AssignAll(w, sc.assignments, st);
    var Val(_, s2) := ExpandWord(w, sc.name.value, s1);
    var Val(_, s3) := ExpandWords(w, sc.args, s2);
    var t0 := Table(ParentOut, ParentErr, stdin, []);
    RedirectAllNeedsItsWord(w, f, s3, t0, sc.redirects);
    var Val(text, s4) := ExpandWord(w, f, s3);
    OrderMatters(w, f, s3, t0, text, s4);
  }

  lemma RedirectAllNeedsItsWord(w: World, f: Word, st: St, t: Table, rs: seq<Redirect>)
    requires rs == [OutTo(f), ErrToOut] || rs == [ErrToOut, OutTo(f)]
    requires RedirectAll(w, rs, st, t).Val?
    ensures ExpandWord(w, f, st).Val?
  {
    hide ExpandWord;
    TwoRedirects(w, OutTo(f), ErrToOut, st, t);
    TwoRedirects(w, ErrToOut, OutTo(f), st, t);
  }

  lemma FlushedIsRead(w: World, t: Table, log: Log, st: St)
    requires |t.files| == 1 && !t.files[0].append && Plain(st, t.files[0].path)
    requires FlushAll(w, t, log, 0, st).Val?
    ensures FlushAll(w, t, log, 0, st).st.mounts == st.mounts
    ensures forall env :: ReadFile(w, FlushAll(w, t, log, 0, st).st.(env := env), t.files[0].path).0 == T.Ok(Contents(t, log, 0))
  {
    hide Contents;
    var path, data := t.files[0].path, Contents(t, log, 0);
    assert "" + data == data;
    assert V.WriteAt(st.root, path, data).0.Ok?;
    assert FlushAll(w, t, log, 0, st).st == st.(root := V.WriteAt(st.root, path, data).1);
    L.WrittenIsRead(st.root, path, data);
  }

  /** `>>`: what was in the file, if it could be read, is kept in front of what was written. */
  lemma AppendedIsRead(w: World, t: Table, log: Log, st: St)
    requires |t.files| == 1 && t.files[0].append && Plain(st, t.files[0].path)
    requires FlushAll(w, t, log, 0, st).Val?
    ensures var before, after := ReadFile(w, st, t.files[0].path).0, ReadFile(w, FlushAll(w, t, log, 0, st).st, t.files[0].path).0;
            after == T.Ok((if before.Ok? then before.value else "") + Contents(t, log, 0))
  {
    hide Contents;
    var path := t.files[0].path;
    var before := V.ReadAt(st.root, path);
    var data := (if before.Ok? then before.value else "") + Contents(t, log, 0);
    assert V.WriteAt(st.root, path, data).0.Ok?;
    assert FlushAll(w, t, log, 0, st).st == st.(root := V.WriteAt(st.root, path, data).1);
    L.WrittenIsRead(st.root, path, data);
  }
}
