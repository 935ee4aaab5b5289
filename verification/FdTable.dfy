/** The descriptor table of a POSIX shell, for any descriptor, and the redirections on which the
    executor's two-entry table agrees with it. */
module FdTable {
  import opened Ast
  import opened Sem
  import ScopeLaws

  /** What a descriptor is open on: what it was when the command started, the i-th file opened for
      output, or some input. */
  datatype Target = Own(fd: nat) | Opened(i: nat) | Input

  /** Open descriptors, and how many files have been opened for output. */
  datatype General = General(fds: map<nat, Target>, files: nat)

  const Start := General(map[0 := Own(0), 1 := Own(1), 2 := Own(2)], 0)

  function FdOf(r: Redirect): nat {
    if r.fd.Some? then r.fd.value else if r.kind.Read? || (r.kind.ReadWrite? && r.target.ToWord?) then 0 else 1
  }

  /** One redirection of section 2.7 of POSIX.1-2017 XCU; None for a descriptor that is not open. */
  function Apply(g: General, r: Redirect): Option<General> {
    var fd := FdOf(r);
    match r.target
    case ToWord(_) =>
      if r.kind.Read? then Some(g.(fds := g.fds[fd := Input]))
      else Some(General(g.fds[fd := Opened(g.files)], g.files + 1))
    case ToHeredoc(_) => if r.kind.Read? then Some(g.(fds := g.fds[fd := Input])) else Some(g)
    case ToFd(m) => if m in g.fds then Some(g.(fds := g.fds[fd := g.fds[m]])) else None
    case CloseFd => Some(g.(fds := g.fds - {fd}))
  }

  /** The executor's table, leaving out which paths were opened. */
  datatype Pair = Pair(out: Sink, err: Sink, files: nat)

  function PairOf(t: Table): Pair {
    Pair(t.out, t.err, |t.files|)
  }

  function CodeStep(p: Pair, r: Redirect): Pair {
    var fd := if r.fd.Some? then r.fd.value else if r.kind.Read? then 0 else 1;
    match r.target
    case ToWord(_) =>
      if r.kind.Read? then p
      else if r.kind.ReadWrite? then Pair(File(p.files), File(p.files), p.files + 1)
      else if fd == 1 then Pair(File(p.files), p.err, p.files + 1)
      else if fd == 2 then Pair(p.out, File(p.files), p.files + 1)
      else p.(files := p.files + 1)
    case ToHeredoc(_) => p
    case ToFd(m) =>
      if fd == 2 && m == 1 then p.(err := p.out)
      else if fd == 1 && m == 2 then p.(out := p.err)
      else p
    case CloseFd => p
  }

  function CodeFold(p: Pair, rs: seq<Redirect>): Pair
    decreases |rs|
  {
    if rs == [] then p else CodeFold(CodeStep(p, rs[0]), rs[1..])
  }

  /** The executor's redirections do this to its table, whatever the words expand to. */
  lemma {:induction false} RedirectAllIsTheFold(w: World, rs: seq<Redirect>, st: St, t: Table)
    requires RedirectAll(w, rs, st, t).Val?
    ensures PairOf(RedirectAll(w, rs, st, t).value) == CodeFold(PairOf(t), rs)
    decreases |rs|
  {
    hide ExpandWord;
    hide ExpandHeredoc;
    hide ReadFile;
    if rs != [] {
      var one := Redirected(w, rs[0], st, t);
      assert PairOf(one.value) == CodeStep(PairOf(t), rs[0]);
      RedirectAllIsTheFold(w, rs[1..], one.st, one.value);
    }
  }

  function TargetOf(s: Sink): Target {
    match s
    case ParentOut => Own(1)
    case ParentErr => Own(2)
    case File(i) => Opened(i)
  }

  /** The two tables agree on descriptors 1 and 2 and have opened as many files. */
  predicate Agree(p: Pair, g: General) {
    && 1 in g.fds && g.fds[1] == TargetOf(p.out)
    && 2 in g.fds && g.fds[2] == TargetOf(p.err)
    && p.files == g.files
  }

  /** Files are numbered in the order of opening. */
  predicate Numbered(g: General) {
    forall fd :: fd in g.fds && g.fds[fd].Opened? ==> g.fds[fd].i < g.files
  }

  /** The redirections the executor's table gets right: any output to a file but `<>` and `&>`, input
      and closing of other descriptors than 1 and 2, and duplication onto another descriptor, or
      onto 1 or 2 from 1, from 2, or from one that is open on the same. */
  predicate Supported(g: General, r: Redirect) {
    var fd := FdOf(r);
    match r.target
    case ToWord(_) => if r.kind.Read? then fd != 1 && fd != 2 else !r.kind.ReadWrite?
    case ToHeredoc(_) => r.kind.Read? ==> fd != 1 && fd != 2
    case ToFd(m) => m in g.fds && (m == 1 || m == 2 || (fd != 1 && fd != 2) || (fd in g.fds && g.fds[m] == g.fds[fd]))
    case CloseFd => fd != 1 && fd != 2
  }

  lemma StepAgrees(p: Pair, g: General, r: Redirect)
    requires Agree(p, g) && Numbered(g)
    ensures (Apply(g, r).Some? && Agree(CodeStep(p, r), Apply(g, r).value)) <==> (1 in g.fds && 2 in g.fds && Supported(g, r))
    ensures Apply(g, r).Some? ==> Numbered(Apply(g, r).value)
  {
    var fd := FdOf(r);
    assert g.fds[1] != Opened(g.files) && g.fds[2] != Opened(g.files);
  }

  /** The tables agree after every one of the redirections. */
  predicate AgreeThroughout(p: Pair, g: General, rs: seq<Redirect>)
    decreases |rs|
  {
    rs == [] || (Apply(g, rs[0]).Some? && Agree(CodeStep(p, rs[0]), Apply(g, rs[0]).value) &&
                 AgreeThroughout(CodeStep(p, rs[0]), Apply(g, rs[0]).value, rs[1..]))
  }

  predicate AllSupported(g: General, rs: seq<Redirect>)
    decreases |rs|
  {
    rs == [] || (1 in g.fds && 2 in g.fds && Supported(g, rs[0]) && Apply(g, rs[0]).Some? && AllSupported(Apply(g, rs[0]).value, rs[1..]))
  }

  lemma {:induction false} AgreeExactly(p: Pair, g: General, rs: seq<Redirect>)
    requires Agree(p, g) && Numbered(g)
    ensures AgreeThroughout(p, g, rs) <==> AllSupported(g, rs)
    decreases |rs|
  {
    hide Supported;
    hide Apply;
    hide CodeStep;
    hide Agree;
    if rs != [] {
      StepAgrees(p, g, rs[0]);
      if Apply(g, rs[0]).Some? && Agree(CodeStep(p, rs[0]), Apply(g, rs[0]).value) {
        AgreeExactly(CodeStep(p, rs[0]), Apply(g, rs[0]).value, rs[1..]);
      }
    }
  }

  /** From the start of any command: the executor's descriptors 1 and 2 are, after every redirection
      of the list, what the general table says, exactly for lists of supported redirections. */
  lemma RedirectionsAgreeExactly(rs: seq<Redirect>)
    ensures AgreeThroughout(Pair(ParentOut, ParentErr, 0), Start, rs) <==> AllSupported(Start, rs)
  {
    AgreeExactly(Pair(ParentOut, ParentErr, 0), Start, rs);
  }

  function ApplyAll(g: General, rs: seq<Redirect>): General
    requires AllSupported(g, rs)
    decreases |rs|
  {
    if rs == [] then g else ApplyAll(Apply(g, rs[0]).value, rs[1..])
  }

  lemma {:induction false} FoldsAgree(p: Pair, g: General, rs: seq<Redirect>)
    requires Agree(p, g) && Numbered(g) && AllSupported(g, rs)
    ensures Agree(CodeFold(p, rs), ApplyAll(g, rs))
    decreases |rs|
  {
    hide Supported;
    hide Apply;
    hide CodeStep;
    hide Agree;
    if rs != [] {
      StepAgrees(p, g, rs[0]);
      FoldsAgree(CodeStep(p, rs[0]), Apply(g, rs[0]).value, rs[1..]);
    }
  }

  /** So a command with supported redirections runs with descriptors 1 and 2 where the general table
      has them. */
  lemma SupportedRedirections(w: World, rs: seq<Redirect>, st: St, stdin: string)
    requires AllSupported(Start, rs) && RedirectAll(w, rs, st, Table(ParentOut, ParentErr, stdin, [])).Val?
    ensures Agree(PairOf(RedirectAll(w, rs, st, Table(ParentOut, ParentErr, stdin, [])).value), ApplyAll(Start, rs))
  {
    RedirectAllIsTheFold(w, rs, st, Table(ParentOut, ParentErr, stdin, []));
    FoldsAgree(Pair(ParentOut, ParentErr, 0), Start, rs);
  }

  // ---------------------------------------------------------------- where a list of redirections ends

  /** The general table behind a list, or None if a descriptor that is not open is duplicated. */
  function GeneralRun(g: General, rs: seq<Redirect>): Option<General>
    decreases |rs|
  {
    if rs == [] then Some(g)
    else
      match Apply(g, rs[0])
      case None => None
      case Some(h) => GeneralRun(h, rs[1..])
  }

  const Begin := Pair(ParentOut, ParentErr, 0)

  function SinkOf(p: Pair, fd: nat): Sink {
    if fd == 1 then p.out else p.err
  }

  predicate AgreeOn(p: Pair, g: General, fd: nat) {
    fd in g.fds && g.fds[fd] == TargetOf(SinkOf(p, fd))
  }

  lemma {:induction false} FoldSnoc(p: Pair, g: General, rs: seq<Redirect>, r: Redirect)
    ensures CodeFold(p, rs + [r]) == CodeStep(CodeFold(p, rs), r)
    ensures GeneralRun(g, rs + [r]) == if GeneralRun(g, rs).Some? then Apply(GeneralRun(g, rs).value, r) else None
    decreases |rs|
  {
    hide CodeStep;
    hide Apply;
    if rs == [] {
      assert rs + [r] == [r] && [r][1..] == [];
      assert CodeFold(CodeStep(p, r), []) == CodeStep(p, r);
    } else {
      assert (rs + [r])[0] == rs[0] && (rs + [r])[1..] == rs[1..] + [r];
      FoldSnoc(CodeStep(p, rs[0]), if Apply(g, rs[0]).Some? then Apply(g, rs[0]).value else g, rs[1..], r);
    }
  }

  /** Seen from the last redirection backwards, descriptor 1 or 2 ends where it should: opening it
      settles it, a `<>` of another descriptor, closing it and giving it an input spoil it, copying 1
      or 2 asks about that one; copying another asks whether that is open on just what the executor,
      which ignores the redirection, leaves this one on. */
  predicate EndsRight(rs: seq<Redirect>, fd: nat)
    requires fd == 1 || fd == 2
    decreases |rs|
  {
    if rs == [] then true
    else
      var front, r := rs[..|rs| - 1], rs[|rs| - 1];
      if FdOf(r) != fd then !(r.target.ToWord? && r.kind.ReadWrite?) && EndsRight(front, fd)
      else
        match r.target
        case ToWord(_) => !r.kind.Read?
        case ToHeredoc(_) => !r.kind.Read? && EndsRight(front, fd)
        case CloseFd => false
        case ToFd(m) => if m == 1 || m == 2 then EndsRight(front, m) else CopiesTheSame(front, m, fd)
  }

  predicate CopiesTheSame(front: seq<Redirect>, m: nat, fd: nat) {
    var g := GeneralRun(Start, front);
    g.Some? && m in g.value.fds && g.value.fds[m] == TargetOf(SinkOf(CodeFold(Begin, front), fd))
  }

  /** One more redirection, as far as one descriptor is concerned. */
  lemma LastStep(p: Pair, g: General, r: Redirect, fd: nat)
    requires (fd == 1 || fd == 2) && Numbered(g) && p.files == g.files && Apply(g, r).Some?
    ensures var q, h := CodeStep(p, r), Apply(g, r).value;
            && Numbered(h) && q.files == h.files
            && (AgreeOn(q, h, fd) <==>
                if FdOf(r) != fd then !(r.target.ToWord? && r.kind.ReadWrite?) && AgreeOn(p, g, fd)
                else if r.target.ToWord? then !r.kind.Read?
                else if r.target.ToHeredoc? then !r.kind.Read? && AgreeOn(p, g, fd)
                else r.target.ToFd? && if r.target.fd == 1 || r.target.fd == 2 then AgreeOn(p, g, r.target.fd)
                                       else g.fds[r.target.fd] == TargetOf(SinkOf(p, fd)))
  {
  }

  lemma {:induction false} TablesEnd(rs: seq<Redirect>)
    requires GeneralRun(Start, rs).Some?
    ensures var p, g := CodeFold(Begin, rs), GeneralRun(Start, rs).value;
            && Numbered(g) && p.files == g.files
            && (AgreeOn(p, g, 1) <==> EndsRight(rs, 1)) && (AgreeOn(p, g, 2) <==> EndsRight(rs, 2))
    decreases |rs|
  {
    hide CodeStep;
    hide Apply;
    hide AgreeOn;
    hide Numbered;
    hide FdOf;
    if rs == [] {
      AtTheStart();
    } else {
      var front, r := rs[..|rs| - 1], rs[|rs| - 1];
      assert rs == front + [r];
      FoldSnoc(Begin, Start, front, r);
      TablesEnd(front);
      LastStep(CodeFold(Begin, front), GeneralRun(Start, front).value, r, 1);
      LastStep(CodeFold(Begin, front), GeneralRun(Start, front).value, r, 2);
      if r.target.ToFd? { CopiedIsOpen(GeneralRun(Start, front).value, r); }
    }
  }

  lemma CopiedIsOpen(g: General, r: Redirect)
    requires r.target.ToFd? && Apply(g, r).Some?
    ensures r.target.fd in g.fds
  {
  }

  lemma AtTheStart()
    ensures Numbered(Start) && AgreeOn(Begin, Start, 1) && AgreeOn(Begin, Start, 2)
  {
  }

  /** What a command's program sees is the table behind the last redirection: there descriptor 1, and
      likewise 2, is what the general table says exactly if the list ends right for it. */
  lemma FinalTableExactly(w: World, rs: seq<Redirect>, st: St, stdin: string)
    requires RedirectAll(w, rs, st, Table(ParentOut, ParentErr, stdin, [])).Val?
    requires GeneralRun(Start, rs).Some?
    ensures var p, g := PairOf(RedirectAll(w, rs, st, Table(ParentOut, ParentErr, stdin, [])).value), GeneralRun(Start, rs).value;
            (AgreeOn(p, g, 1) <==> EndsRight(rs, 1)) && (AgreeOn(p, g, 2) <==> EndsRight(rs, 2))
  {
    hide RedirectAll;
    hide AgreeOn;
    hide EndsRight;
    RedirectAllIsTheFold(w, rs, st, Table(ParentOut, ParentErr, stdin, []));
    TablesEnd(rs);
  }

  /** A list can end right without being right throughout: `>&- >f`. */
  lemma ClosedThenOpened(w: Word)
    ensures var rs := [Redirect(Some(1), Write, CloseFd), Redirect(Some(1), Write, ToWord(w))];
            EndsRight(rs, 1) && EndsRight(rs, 2) && !AllSupported(Start, rs)
  {
    var a, b := Redirect(Some(1), Write, CloseFd), Redirect(Some(1), Write, ToWord(w));
    var rs := [a, b];
    assert rs[..1] == [a] && [a][..0] == [] && EndsRight([], 2);
    assert EndsRight([a], 2);
    assert !Supported(Start, rs[0]);
  }
}
