/** The in-memory tree of the virtual filesystem and the flat map it stands for. */
module VfsTree {
  import opened Paths

  datatype DeviceKind = Null | Stdin | Stdout | Stderr

  /** File contents and program output, as ASCII characters. */
  type byte = char

  datatype Node =
    | File(data: seq<byte>)
    | Dir(entries: map<string, Node>)
    | Device(kind: DeviceKind)

  datatype VfsError =
    | NotFound(path: string)
    | NotADir(path: string)
    | AlreadyExists(path: string)
    | PermissionDenied(path: string)
    | IsADir(path: string)
    | NotEmpty(path: string)
    | InvalidPath(what: string)
    | MountError(what: string)

  datatype Result<+T> = Ok(value: T) | Err(error: VfsError) {
    predicate IsFailure() { Err? }

    function PropagateFailure<U>(): Result<U>
      requires Err?
    {
      Err(error)
    }

    function Extract(): T
      requires Ok?
    {
      value
    }
  }

  /** A location as a list of components; `[]` is the root. */
  type Path = seq<string>

  // ---------------------------------------------------------------- walking and rebuilding the tree

  function NodeAt(root: Node, comps: Path, orig: string): Result<Node> {
    if comps == [] then Ok(root)
    else
      match root
      case Dir(entries) =>
        if comps[0] in entries then NodeAt(entries[comps[0]], comps[1..], orig) else Err(NotFound(orig))
      case _ => Err(NotADir(orig))
  }

  predicate HasDir(root: Node, comps: Path) {
    NodeAt(root, comps, "").Ok? && NodeAt(root, comps, "").value.Dir?
  }

  /** The tree with the entries of the directory at `comps` replaced. */
  function WithEntries(root: Node, comps: Path, entries: map<string, Node>): (r: Node)
    requires HasDir(root, comps)
    ensures r.Dir?
    decreases |comps|
  {
    if comps == [] then Dir(entries)
    else Dir(root.entries[comps[0] := WithEntries(root.entries[comps[0]], comps[1..], entries)])
  }

  // ---------------------------------------------------------------- the flat map

  datatype Entry = FileE(data: seq<byte>) | DirE | DeviceE(kind: DeviceKind)

  /** What a location holds, without the subtree below it. */
  function EntryOf(n: Node): Entry {
    match n
    case File(data) => FileE(data)
    case Dir(_) => DirE
    case Device(kind) => DeviceE(kind)
  }

  type Flat = imap<Path, Entry>

  ghost predicate Present(root: Node, p: Path) {
    NodeAt(root, p, "").Ok?
  }

  /** Every location of a tree with what it holds. */
  ghost function Flatten(root: Node): Flat {
    imap p: Path | Present(root, p) :: EntryOf(NodeAt(root, p, "").value)
  }

  /** The map is prefix-closed: everything above a location is a directory. */
  ghost predicate TreeShaped(m: Flat) {
    forall p: Path, q: Path :: p in m && q < p ==> q in m && m[q].DirE?
  }

  /** Looking a location up in a flat map, with the tree walk's errors: a non-directory on the way
      wins over a missing entry. */
  ghost function Lookup(m: Flat, p: Path, orig: string): Result<Entry> {
    if p in m then Ok(m[p])
    else if exists q: Path :: q < p && q in m && !m[q].DirE? then Err(NotADir(orig))
    else Err(NotFound(orig))
  }

  ghost function Subtree(m: Flat, p: Path): Flat {
    imap q: Path | p + q in m :: m[p + q]
  }

  /** `m` without `p` and everything below it. */
  ghost function Prune(m: Flat, p: Path): Flat {
    imap q: Path | q in m && !(p <= q) :: m[q]
  }

  /** `m` with the whole of `sub` placed at `p`, replacing what was there. */
  ghost function Graft(m: Flat, p: Path, sub: Flat): Flat {
    imap q: Path | (p <= q && q[|p|..] in sub) || (!(p <= q) && q in m) :: if p <= q then sub[q[|p|..]] else m[q]
  }

  // ---------------------------------------------------------------- the walk refines the flat map

  lemma {:induction false} WalkIgnoresOrig(root: Node, p: Path, orig: string)
    ensures NodeAt(root, p, orig).Ok? == NodeAt(root, p, "").Ok?
    ensures NodeAt(root, p, "").Ok? ==> NodeAt(root, p, orig) == NodeAt(root, p, "")
    decreases |p|
  {
    if p != [] && root.Dir? && p[0] in root.entries { WalkIgnoresOrig(root.entries[p[0]], p[1..], orig); }
  }

  lemma {:induction false} WalkConcat(root: Node, p: Path, q: Path)
    ensures NodeAt(root, p, "").Ok? ==> NodeAt(root, p + q, "") == NodeAt(NodeAt(root, p, "").value, q, "")
    ensures NodeAt(root, p, "").Err? ==> NodeAt(root, p + q, "").Err?
    decreases |p|
  {
    if p == [] {
      assert p + q == q;
    } else if root.Dir? && p[0] in root.entries {
      assert (p + q)[1..] == p[1..] + q;
      WalkConcat(root.entries[p[0]], p[1..], q);
    }
  }

  lemma FlattenIsTreeShaped(root: Node)
    ensures TreeShaped(Flatten(root))
  {
    var m := Flatten(root);
    forall p: Path, q: Path | p in m && q < p ensures q in m && m[q].DirE? {
      assert p == q + p[|q|..];
      WalkConcat(root, q, p[|q|..]);
    }
  }

  /** A failed walk names a non-directory exactly when one stands on the way. */
  lemma {:induction false} WalkError(root: Node, p: Path, orig: string)
    requires NodeAt(root, p, orig).Err?
    ensures NodeAt(root, p, orig) == Err(NotADir(orig)) <==>
            exists q: Path :: q < p && Present(root, q) && !NodeAt(root, q, "").value.Dir?
    ensures NodeAt(root, p, orig) in {Err(NotADir(orig)), Err(NotFound(orig))}
    decreases |p|
  {
    if !root.Dir? {
      var q: Path := [];
      assert q < p && Present(root, q) && NodeAt(root, q, "").value == root;
    } else if p[0] in root.entries {
      var child, rest := root.entries[p[0]], p[1..];
      WalkError(child, rest, orig);
      if exists q: Path :: q < rest && Present(child, q) && !NodeAt(child, q, "").value.Dir? {
        var q: Path :| q < rest && Present(child, q) && !NodeAt(child, q, "").value.Dir?;
        var q' := [p[0]] + q;
        assert q'[1..] == q && q' < p;
        assert NodeAt(root, q', "") == NodeAt(child, q, "");
        assert Present(root, q');
      }
      if exists q: Path :: q < p && Present(root, q) && !NodeAt(root, q, "").value.Dir? {
        var q: Path :| q < p && Present(root, q) && !NodeAt(root, q, "").value.Dir?;
        assert q != [];
        assert q[1..] < rest && Present(child, q[1..]);
      }
    } else {
      assert forall q: Path :: q < p && q != [] ==> q[0] == p[0];
    }
  }

  /** The tree walk answers what the flat map says. */
  lemma WalkRefinesLookup(root: Node, p: Path, orig: string)
    ensures match NodeAt(root, p, orig)
            case Ok(n) => Lookup(Flatten(root), p, orig) == Ok(EntryOf(n)) && NodeAt(root, p, "") == Ok(n)
            case Err(e) => Lookup(Flatten(root), p, orig) == Err(e)
  {
    WalkIgnoresOrig(root, p, orig);
    if NodeAt(root, p, orig).Err? {
      WalkError(root, p, orig);
      var m := Flatten(root);
      if NodeAt(root, p, orig) == Err(NotADir(orig)) {
        var q: Path :| q < p && Present(root, q) && !NodeAt(root, q, "").value.Dir?;
        assert q in m && !m[q].DirE?;
      } else {
        forall q: Path | q < p && q in m ensures m[q].DirE? {
          assert Present(root, q);
        }
      }
    }
  }

  // ---------------------------------------------------------------- changing one directory

  /** Replacing a directory's entries changes nothing outside the directory. */
  lemma {:induction false} WithEntriesWalk(root: Node, comps: Path, entries: map<string, Node>, q: Path)
    requires HasDir(root, comps)
    ensures !(comps <= q) && !(q <= comps) ==>
              NodeAt(WithEntries(root, comps, entries), q, "") == NodeAt(root, q, "")
    ensures q < comps ==> HasDir(WithEntries(root, comps, entries), q) && HasDir(root, q)
    ensures comps <= q ==>
              NodeAt(WithEntries(root, comps, entries), q, "") == NodeAt(Dir(entries), q[|comps|..], "")
    decreases |comps|
  {
    if comps != [] && q != [] && q[0] == comps[0] {
      WithEntriesWalk(root.entries[comps[0]], comps[1..], entries, q[1..]);
      if comps <= q { assert q[1..][|comps[1..]|..] == q[|comps|..]; }
    }
  }

  /** A location is at or below the name `name` of `comps`, or it is not. */
  lemma BelowName(comps: Path, name: string, q: Path)
    ensures comps + [name] <= q <==> comps < q && q[|comps|] == name
    ensures comps + [name] <= q ==> q[|comps|..][1..] == q[|comps + [name]|..]
  {
    var p := comps + [name];
    if comps < q && q[|comps|] == name { assert q[..|p|] == p; }
  }

  /** Both trees hold the same at a location, leaving out what is below it. */
  predicate SameAt(a: Node, b: Node, q: Path) {
    && NodeAt(a, q, "").Ok? == NodeAt(b, q, "").Ok?
    && (NodeAt(a, q, "").Ok? ==> EntryOf(NodeAt(a, q, "").value) == EntryOf(NodeAt(b, q, "").value))
  }

  /** New entries that differ from the old ones at one name change nothing elsewhere. */
  lemma ElsewhereTheSame(root: Node, comps: Path, name: string, entries: map<string, Node>, q: Path)
    requires HasDir(root, comps) && entries - {name} == NodeAt(root, comps, "").value.entries - {name}
    requires !(comps + [name] <= q)
    ensures SameAt(WithEntries(root, comps, entries), root, q)
  {
    hide WithEntries;
    WithEntriesWalk(root, comps, entries, q);
    EntryWalk(root, comps, q);
    BelowName(comps, name, q);
    if comps < q {
      var dir, r := NodeAt(root, comps, "").value, q[|comps|..];
      assert r[0] in entries <==> r[0] in entries - {name};
      assert r[0] in dir.entries <==> r[0] in dir.entries - {name};
      if r[0] in entries { assert entries[r[0]] == (entries - {name})[r[0]] == dir.entries[r[0]]; }
    }
  }

  /** What stands at and below the name itself. */
  lemma AtTheName(root: Node, comps: Path, name: string, entries: map<string, Node>, q: Path)
    requires HasDir(root, comps) && comps + [name] <= q
    ensures NodeAt(WithEntries(root, comps, entries), q, "") ==
            if name in entries then NodeAt(entries[name], q[|comps| + 1..], "") else Err(NotFound(""))
  {
    hide WithEntries;
    WithEntriesWalk(root, comps, entries, q);
    BelowName(comps, name, q);
  }

  lemma FlatAt(root: Node, q: Path)
    ensures q in Flatten(root) <==> NodeAt(root, q, "").Ok?
    ensures q in Flatten(root) ==> Flatten(root)[q] == EntryOf(NodeAt(root, q, "").value)
  {
  }

  /** Setting one name in a directory grafts the new node's whole tree there. */
  lemma InsertIsGraft(root: Node, comps: Path, name: string, node: Node)
    requires HasDir(root, comps)
    ensures var entries := NodeAt(root, comps, "").value.entries;
            Flatten(WithEntries(root, comps, entries[name := node])) ==
            Graft(Flatten(root), comps + [name], Flatten(node))
  {
    hide NodeAt;
    hide WithEntries;
    hide Flatten;
    var entries := NodeAt(root, comps, "").value.entries[name := node];
    var root', p := WithEntries(root, comps, entries), comps + [name];
    var m' := Graft(Flatten(root), p, Flatten(node));
    forall q: Path ensures (q in Flatten(root') <==> q in m') && (q in m' ==> Flatten(root')[q] == m'[q]) {
      FlatAt(root, q);
      FlatAt(root', q);
      if p <= q {
        AtTheName(root, comps, name, entries, q);
        FlatAt(node, q[|p|..]);
      } else {
        ElsewhereTheSame(root, comps, name, entries, q);
      }
    }
    assert Flatten(root') == m';
  }

  /** Dropping one name from a directory prunes it with everything below. */
  lemma DropIsPrune(root: Node, comps: Path, name: string)
    requires HasDir(root, comps)
    ensures var entries := NodeAt(root, comps, "").value.entries;
            Flatten(WithEntries(root, comps, entries - {name})) == Prune(Flatten(root), comps + [name])
  {
    hide NodeAt;
    hide WithEntries;
    hide Flatten;
    var entries := NodeAt(root, comps, "").value.entries - {name};
    var root', p := WithEntries(root, comps, entries), comps + [name];
    var m' := Prune(Flatten(root), p);
    forall q: Path ensures (q in Flatten(root') <==> q in m') && (q in m' ==> Flatten(root')[q] == m'[q]) {
      FlatAt(root, q);
      FlatAt(root', q);
      if p <= q {
        AtTheName(root, comps, name, entries, q);
      } else {
        ElsewhereTheSame(root, comps, name, entries, q);
      }
    }
    assert Flatten(root') == m';
  }

  lemma EntryWalk(root: Node, comps: Path, q: Path)
    requires HasDir(root, comps)
    ensures comps <= q ==> NodeAt(root, q, "") == NodeAt(NodeAt(root, comps, "").value, q[|comps|..], "")
  {
    if comps <= q {
      assert q == comps + q[|comps|..];
      WalkConcat(root, comps, q[|comps|..]);
    }
  }

  /** The tree under a location is the flat map's subtree there. */
  lemma SubtreeOfNode(root: Node, p: Path)
    requires Present(root, p)
    ensures Flatten(NodeAt(root, p, "").value) == Subtree(Flatten(root), p)
  {
    forall q: Path { SubtreeEntry(root, p, q); }
    SubtreeIs(Flatten(root), p, Flatten(NodeAt(root, p, "").value));
  }

  lemma SubtreeEntry(root: Node, p: Path, q: Path)
    requires Present(root, p)
    ensures var sub, m := Flatten(NodeAt(root, p, "").value), Flatten(root);
            (q in sub <==> p + q in m) && (q in sub ==> sub[q] == m[p + q])
  {
    WalkConcat(root, p, q);
  }

  lemma SubtreeIs(m: Flat, p: Path, sub: Flat)
    requires forall q: Path :: (q in sub <==> p + q in m) && (q in sub ==> sub[q] == m[p + q])
    ensures sub == Subtree(m, p)
  {
  }
}
